/** The functions of download/download.go as a host that owns the working
    directory. Its files and its count of content requests are fields that the
    operations update in place; what the network, the file system's
    permissions, MD5 and the zip reader answer is the constant `world`. Every
    method is proved to leave the host in the state, and return the value,
    that the function of the same name in `DownloadSteps` gives. */
module Download {
  import opened Wrappers
  import opened GoLib
  import opened DownloadSteps
  import VmList
  import VirtualBox

  class Host {
    const world: World
    var files: map<string, seq<byte>>
    var contentFetches: nat

    function State(): Disk
      reads this
    {
      Disk(files, contentFetches)
    }

    constructor (world: World, files: map<string, seq<byte>>)
      ensures this.world == world && this.files == files && contentFetches == 0
    {
      this.world := world;
      this.files := files;
      contentFetches := 0;
    }

    /** `DoesOvaFileExist`: whether `<vmName>.ova` is in the working directory. */
    method DoesOvaFileExist(vmName: string) returns (r: Result<bool, Error>)
      ensures r == DownloadSteps.DoesOvaFileExist(world, files, vmName)
      ensures r == Success(false) <==> vmName + ".ova" !in files
    {
      r := FileExists(VirtualBox.GetOvaFileNameForVmName(vmName));
    }

    /** `fileExists`. */
    method FileExists(path: string) returns (r: Result<bool, Error>)
      ensures r == DownloadSteps.FileExists(world, files, path)
    {
      if path !in files {
        return Success(false);
      }
      if path in world.openFails {
        return Failure(PathError("open", path));
      }
      return Success(true);
    }

    /** `fetchMd5`: asks the checksum server; the host's state is not involved. */
    method FetchMd5(md5Url: string) returns (r: Result<string, Error>)
      ensures r == DownloadSteps.FetchMd5(world, md5Url)
    {
      if md5Url !in world.checksumServer {
        return Failure(NetError(md5Url));
      }
      match world.checksumServer[md5Url] {
        case Complete(text) => r := Success(text);
        case Broken(_) => r := Failure(BodyReadError(md5Url));
      }
    }

    /** `calcMd5OfFile`. */
    method CalcMd5OfFile(path: string) returns (r: Result<string, Error>)
      ensures r == DownloadSteps.CalcMd5OfFile(world, files, path)
    {
      if path !in files {
        return Success("");
      }
      if path in world.openFails {
        return Failure(PathError("open", path));
      }
      // io.Copy(h, f): the hash is fed the file's bytes in order
      var data := files[path];
      var h := world.md5Init;
      for i := 0 to |data|
        invariant h == Absorb(world, world.md5Init, data[..i])
      {
        AbsorbStep(world, world.md5Init, data[..i], data[i]);
        assert data[..i + 1] == data[..i] + [data[i]];
        h := world.md5Write(h, data[i]);
      }
      assert data[..|data|] == data;
      r := Success(Hex(world.md5Sum(h)));
    }

    /** `downloadFileAndCalcMd5`. */
    method DownloadFileAndCalcMd5(url: string, path: string) returns (r: Result<string, Error>)
      modifies this
      ensures DownloadSteps.DownloadFileAndCalcMd5(world, old(State()), url, path) == Fetched(State(), r)
    {
      contentFetches := contentFetches + 1;
      if url !in world.contentServer {
        return Failure(NetError(url));
      }
      if path in world.createFails {
        return Failure(PathError("open", path));
      }
      // os.Create: the file exists and is empty
      files := files[path := []];
      // io.Copy(writer, io.TeeReader(resp.Body, h)): every byte read is
      // appended to the file and fed to the hash
      var response := world.contentServer[url];
      var source := if response.Complete? then response.body else response.partial;
      var written: seq<byte> := [];
      var h := world.md5Init;
      for i := 0 to |source|
        invariant written == source[..i]
        invariant h == Absorb(world, world.md5Init, written)
        invariant files == old(files)[path := written]
        invariant contentFetches == old(contentFetches) + 1
      {
        AbsorbStep(world, world.md5Init, written, source[i]);
        written := written + [source[i]];
        h := world.md5Write(h, source[i]);
        files := files[path := written];
      }
      assert written == source;
      if response.Broken? {
        return Failure(BodyReadError(url));
      }
      r := Success(Hex(world.md5Sum(h)));
    }

    /** `downloadFileIfMd5NotMatch`. */
    method DownloadFileIfMd5NotMatch(md5: string, url: string, path: string) returns (err: Option<Error>)
      modifies this
      ensures DownloadSteps.DownloadFileIfMd5NotMatch(world, old(State()), md5, url, path) == Step(State(), err)
    {
      var localMd5 := CalcMd5OfFile(path);
      if localMd5.Failure? {
        return Some(localMd5.error);
      }
      if localMd5.value == md5 {
        return None;
      }
      var got := DownloadFileAndCalcMd5(url, path);
      if got.Failure? {
        return Some(got.error);
      }
      if got.value != md5 {
        return Some(Md5Unmatched(md5, got.value));
      }
      return None;
    }

    /** `downloadMd5AndFileIfMd5NotMatch`. */
    method DownloadMd5AndFileIfMd5NotMatch(md5Url: string, url: string, path: string) returns (err: Option<Error>)
      modifies this
      ensures DownloadSteps.DownloadMd5AndFileIfMd5NotMatch(world, old(State()), md5Url, url, path) == Step(State(), err)
    {
      var md5 := FetchMd5(md5Url);
      if md5.Failure? {
        return Some(md5.error);
      }
      err := DownloadFileIfMd5NotMatch(md5.value, url, path);
    }

    /** `downloadFileIfNeeded`. */
    method DownloadFileIfNeeded(f: VmList.ChunkFile) returns (err: Option<Error>)
      modifies this
      ensures DownloadSteps.DownloadFileIfNeeded(world, old(State()), f) == Step(State(), err)
    {
      err := DownloadMd5AndFileIfMd5NotMatch(f.md5Url, f.url, VmList.GetLocalFileName(f));
    }

    /** `unzipFile`: writes every file entry of the archive to its base name
      in the working directory, one entry per iteration. */
    method UnzipFile(filename: string) returns (err: Option<Error>)
      modifies this
      ensures DownloadSteps.UnzipFile(world, old(State()), filename) == Step(State(), err)
    {
      if filename !in files || filename in world.openFails {
        return Some(PathError("open", filename));
      }
      var archive := world.zipReader(files[filename]);
      if archive.None? {
        return Some(ZipFormatError(filename));
      }
      var entries := archive.value;
      var i := 0;
      while i < |entries|
        invariant 0 <= i <= |entries|
        invariant contentFetches == old(contentFetches)
        invariant Extract(world.createFails, old(files), entries) == Extract(world.createFails, files, entries[i..])
      {
        var f := entries[i];
        assert entries[i..][1..] == entries[i + 1..];
        if !f.isDir {
          if f.body.Unopenable? {
            return Some(ZipEntryError(f.name));
          }
          var out := Base(f.name);
          if out in world.createFails {
            return None;
          }
          match f.body {
            case Readable(data) =>
              files := files[out := data];
            case Truncated(partial) =>
              files := files[out := partial];
              return Some(ZipEntryError(f.name));
          }
        }
        i := i + 1;
      }
      return None;
    }

    /** `os.Remove`. */
    method RemoveFile(path: string) returns (err: Option<Error>)
      modifies this
      ensures DownloadSteps.RemoveFile(world, old(State()), path) == Step(State(), err)
    {
      if path !in files || path in world.removeFails {
        return Some(PathError("remove", path));
      }
      files := files - {path};
      return None;
    }

    /** `DownloadAndBuildOvaFile`. */
    method DownloadAndBuildOvaFile(f: VmList.ChunkFile) returns (err: Option<Error>)
      modifies this
      ensures DownloadSteps.DownloadAndBuildOvaFile(world, old(State()), f) == Step(State(), err)
    {
      err := DownloadFileIfNeeded(f);
      if err.Some? {
        return;
      }
      var filename := VmList.GetLocalFileName(f);
      err := UnzipFile(filename);
      if err.Some? {
        return;
      }
      err := RemoveFile(filename);
    }
  }
}
