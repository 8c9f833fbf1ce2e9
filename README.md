# moderniedownloader core, modelled in Dafny

moderniedownloader fetches the "modern.IE" Internet Explorer test virtual
machines. It looks up the download chunks of a browser/OS pair in a decoded
manifest. For each chunk it downloads the file, checks its MD5 against the
published checksum, unzips the archive and removes the chunk. It then imports,
configures, snapshots and starts the machine through `VBoxManage`. This
project models four pieces of that logic and proves what they promise:

- **download/download.go** (`Download`, `DownloadSteps`). The download-and-verify
  decision for one chunk, the unzip loop and the final removal.
  - Class `Download.Host` keeps the working directory as a field
    `files: map<string, seq<byte>>` and counts content requests in
    `contentFetches`. Its methods update both in place.
  - Each method is proved to agree with the function of the same name in
    `DownloadSteps`. That module states the step as a transition on
    `Disk(files, contentFetches)`, and its lemmas state the properties of the
    pipeline.
  - Everything outside the host is a constant `World`: the checksum and
    content servers, the paths that cannot be opened, created or removed, the
    MD5 hasher (an initial state, a function that writes one byte and one that
    gives the 16-byte sum) and the zip reader as a function to an entry list.
- **vmlist/chunk_files.go** (`VmList`). The three-stage first-match search
  over the decoded manifest, and the local file name of a chunk.
- **virtualbox/virtualbox.go** (`VirtualBox`). Covers:
  - the `"IE<ver> - <os>"` name grammar;
  - the OS table and its inverse built at start-up;
  - the VM name list;
  - the memory settings per OS;
  - the `VBoxManage list vms` line filter;
  - how each `VBoxManage` wrapper reads exit codes.
  
  `VBoxManage` is a function from an argument list to the way the command
  ended. Each wrapper returns the commands it ran and its error.
- **executil/executil.go** (`ExecUtil`). How a finished `cmd.Run()` becomes an
  `(ExitStatus, error)` pair.

`GoLib` holds the Go library behaviour these depend on: `path.Base`,
`strings.Index`, `%d`, `%x` on bytes, and the error values. `Wrappers` holds
`Option` and `Result`. A Go `nil` slice or error is `None`. A Go pair
`(value, error)` is a `Result` whenever the value carries nothing on error.

## Model

| member | source | states |
|---|---|---|
| GoLib.Base | download/download.go:157 | `path.Base` is never empty, and is "/" or free of '/'. It gives "." for the empty path and "/" for a path of slashes only |
| GoLib.BaseOfPlainName | vmlist/chunk_files.go:38-40 | the base name of `dir/name` is `name` whenever `name` is a non-empty plain name |
| GoLib.BaseIgnoresTrailingSlash | vmlist/chunk_files.go:38-40 | trailing slashes never change the base name of a non-empty path |
| GoLib.BaseIdempotent | vmlist/chunk_files.go:38-40 | a base name is its own base name |
| GoLib.Index | virtualbox/virtualbox.go:155 | `strings.Index` gives -1 or a position where the separator occurs, and no earlier position has it |
| GoLib.IntToDecimal | virtualbox/virtualbox.go:126 | `%d` of an int is non-empty and starts with '-' exactly for negative values |
| GoLib.DecimalRoundTrip | virtualbox/virtualbox.go:126 | reading back the decimal digits printed for `n` gives `n` |
| GoLib.IntToDecimalInjective | virtualbox/virtualbox.go:126 | distinct codes print differently |
| GoLib.Hex | download/download.go:115 | `%x` of a byte slice is two lowercase hex digits per byte |
| GoLib.UnhexHex | download/download.go:115 | reading the hex text back gives the bytes |
| GoLib.HexInjective | download/download.go:115 | different byte strings give different hex texts |
| ExecUtil.Run | executil/executil.go:14-37 | a normal completion gives code 0, a nil ExitError and a nil error. An exit error with a wait status gives that code and a nil error, so a non-zero exit is not an error. One without a wait status gives code 0, keeps the ExitError and returns the "Unimplemented…" error. Any other failure gives a nil status and the original error, and the status is nil only then. A nil error always comes with a status |
| ExecUtil.ExitedZeroCases | executil/executil.go:14-37 | "nil error and code 0" holds exactly for a normal completion or a wait status of 0 |
| VmList.GetLocalFileName | vmlist/chunk_files.go:38-40 | the local name is never empty and contains no '/' unless it is "/" |
| VmList.LocalFileNameOfUrl | vmlist/chunk_files.go:38-40 | for a URL `dir/name` the local file name is `name` |
| VmList.GetSoftwareListForOsName | vmlist/chunk_files.go:68-75 | returns the SoftwareList of the first entry with that OsName, and nil when no entry has it |
| VmList.GetBrowsersForSoftwareName | vmlist/chunk_files.go:77-84 | returns the Browsers of the first entry with that SoftwareName, and nil when none has it |
| VmList.GetFilesForVersionAndOsVersion | vmlist/chunk_files.go:86-93 | returns the Files of the first entry equal in both Version and OsVersion, and nil when none is |
| VmList.GetFilesForBrowser | vmlist/chunk_files.go:42-66 | every failure is one of the three "not found" errors |
| VmList.FilesOfFirstMatches | vmlist/chunk_files.go:50-65 | when the first OS, software and browser matches all carry lists, the result is exactly the matched entry's Files, in manifest order |
| VmList.FilesOnlyFromFirstMatches | vmlist/chunk_files.go:50-65 | every success comes from the first match at each of the three stages |
| VmList.FirstOsIndex | vmlist/chunk_files.go:68-75 | a non-nil result has a first matching OS entry |
| VmList.FirstSoftwareIndex | vmlist/chunk_files.go:77-84 | a non-nil result has a first matching software entry |
| VmList.FirstBrowserIndex | vmlist/chunk_files.go:86-93 | a non-nil result has a first entry matching both versions |
| VmList.MissingOsDecides | vmlist/chunk_files.go:50-53 | a missing OS gives the OS error, whatever the later fields ask for |
| VmList.MissingSoftwareDecides | vmlist/chunk_files.go:55-58 | a missing software gives the software error, whatever the browser fields ask for |
| VmList.NilSoftwareListReportedAsMissing | vmlist/chunk_files.go:51-53 | a matched OS with a nil list is reported like no OS at all |
| VmList.NilBrowsersReportedAsMissing | vmlist/chunk_files.go:56-58 | in any manifest, a first-matching software entry with a nil browser list gives the software error |
| VmList.NilFilesReportedAsMissing | vmlist/chunk_files.go:61-63 | in any manifest, a first-matching browser entry with a nil file list gives the files error |
| VirtualBox.GetOsVersionFromVmName | virtualbox/virtualbox.go:168-174 | "" without the separator. Otherwise everything after the first " - " |
| VirtualBox.GetBrowserVersionFromVmName | virtualbox/virtualbox.go:154-166 | "" without the separator or without the "IE" prefix. A non-empty result re-formats, with the OS part, to the original name |
| VirtualBox.FormatVmName | virtualbox/virtualbox.go:92 | the name is "IE", then the version, then " - ", then the OS name, each at its own position |
| VirtualBox.SeparatorOfFormattedName | virtualbox/virtualbox.go:92 | in a formatted name whose version has no space, the first separator is the one inserted |
| VirtualBox.ParseFormattedName | virtualbox/virtualbox.go:154-174 | parsing `"IE"+v+" - "+o` gives back `v` and `o` for every space-free `v` |
| VirtualBox.ForwardTableEntries | virtualbox/virtualbox.go:35-42 | the table's six keys and their values |
| VirtualBox.ForwardTableInjective | virtualbox/virtualbox.go:35-42 | the six values are distinct and none is "" |
| VirtualBox.ForwardTableSize | virtualbox/virtualbox.go:35-42 | there are six values |
| VirtualBox.InverseOfInjective | virtualbox/virtualbox.go:46-51 | an inverse of an injective table maps each value back to its key and has one entry per value |
| VirtualBox.BuildInverse | virtualbox/virtualbox.go:48-50 | the loop over the table's entries builds its inverse, whatever the iteration order |
| VirtualBox.Init | virtualbox/virtualbox.go:46-51 | the inverse has exactly six entries and `inverse[forward[k]] == k` for every key |
| VirtualBox.GetVmNameList | virtualbox/virtualbox.go:84-95 | one name per browser, in order, `"IE"+Version+" - "+inverse[OsVersion]`, with "" for an unknown token |
| VirtualBox.NewVmListBrowserSpecFromVmName | virtualbox/virtualbox.go:97-115 | success exactly for a non-empty version and a known OS. An empty version gives the invalid-version error, and a non-empty one with an OS outside the table the unknown-OS error. A success has "Mac", "VirtualBox", the version and the mapped token |
| VirtualBox.BrowserSpecOfFormattedName | virtualbox/virtualbox.go:97-115 | a formatted name with a known OS parses into its version and mapped token |
| VirtualBox.VmNameListRoundTrip | virtualbox/virtualbox.go:84-115 | each name made from a browser with a known token parses back to that browser's version and token |
| VirtualBox.GetOvaFileNameForVmName | virtualbox/virtualbox.go:176-178 | the file name is the VM name followed by ".ova" |
| VirtualBox.OvaFileNameInjective | virtualbox/virtualbox.go:176-178 | distinct VM names have distinct OVA files |
| VirtualBox.RunChecked | virtualbox/virtualbox.go:117-128 | one command runs. A run error is passed on, and a non-zero exit is an error naming the code. There is no error exactly when the command exits with 0 |
| VirtualBox.ExitCodeErrorDeterminesCode | virtualbox/virtualbox.go:126 | the "failed with exitCode=" message determines the code |
| VirtualBox.AndThen | virtualbox/virtualbox.go:130-152 | the first error stops the sequence, otherwise the commands concatenate |
| VirtualBox.DoesVmExist | virtualbox/virtualbox.go:22-33 | true exactly for exit code 0, false for any other code, and a run error gives an error |
| VirtualBox.StartVm | virtualbox/virtualbox.go:117-128 | runs `startvm <name> --type gui` and succeeds exactly on exit 0 |
| VirtualBox.StartVmNonZeroExit | virtualbox/virtualbox.go:124-126 | a non-zero exit gives the error that names the command and the code |
| VirtualBox.ImportVm | virtualbox/virtualbox.go:180-193 | runs `import <ova>` and succeeds exactly on exit 0 |
| VirtualBox.MemoryArgs | virtualbox/virtualbox.go:195-204 | WinXP/Vista get `--memory 1024`, Win7/Win8/Win8.1 get `--memory 2048 --vram 128`, and any other OS gets no command |
| VirtualBox.ConfigVmMemory | virtualbox/virtualbox.go:195-216 | an unsupported OS gives the "Unsupported os version" error with no command run. Otherwise the one modifyvm command runs |
| VirtualBox.Win10MemoryUnsupported | virtualbox/virtualbox.go:195-204 | Win10 is in the table yet unsupported for memory settings |
| VirtualBox.AttachGuestAdditionsMedia | virtualbox/virtualbox.go:218-231 | runs the storageattach command and succeeds exactly on exit 0 |
| VirtualBox.SetClipboardMode | virtualbox/virtualbox.go:233-246 | runs the clipboard command and succeeds exactly on exit 0 |
| VirtualBox.TakeSnapshot | virtualbox/virtualbox.go:248-261 | runs the snapshot command and succeeds exactly on exit 0 |
| VirtualBox.ImportAndConfigureVm | virtualbox/virtualbox.go:130-152 | one to four commands run and the import is always the first. A failed import runs nothing else and is an error |
| VirtualBox.ImportAndConfigureVmSucceeded | virtualbox/virtualbox.go:130-152 | success means the four commands (import, memory, guest additions, snapshot) ran in this order and each exited with 0, so the OS has memory settings |
| VirtualBox.ImportThenUnsupportedOs | virtualbox/virtualbox.go:130-152 | for an unsupported OS only the import runs, and the memory error is returned |
| VirtualBox.RunEnd | virtualbox/virtualbox.go:67 | a `[\d.]*` run ends at the first character that is neither a digit nor '.' |
| VirtualBox.MatchVmLine | virtualbox/virtualbox.go:67-74 | a match is the text between the line's leading quote and a later quote, and starts with "IE" |
| VirtualBox.MatchVmLineComplete | virtualbox/virtualbox.go:67 | every line `"IE<a> - Win<b>"…` with non-empty digit-and-dot runs is matched, capturing the quoted name |
| VirtualBox.RunEndOfRun | virtualbox/virtualbox.go:67 | the run scanner stops exactly where the run ends |
| VirtualBox.MatchVmLineSound | virtualbox/virtualbox.go:67 | every matched line has the `^"(IE[\d.]+ - Win[\d.]+)"` shape and captures that name |
| VirtualBox.RegisteredNames | virtualbox/virtualbox.go:66-76 | there are never more names than lines, and each name is the capture of some output line |
| VirtualBox.RegisteredNamesAppend | virtualbox/virtualbox.go:69-75 | the names of two stretches of output are the first's followed by the second's, so output order is kept |
| VirtualBox.RegisteredNamesComplete | virtualbox/virtualbox.go:69-75 | the capture of every matching line is listed |
| VirtualBox.RegisteredNamesParse | virtualbox/virtualbox.go:66-76 | every listed name is `"IE"+a+" - Win"+b` with numeric `a` and `b`, and parses back into them |
| VirtualBox.RegisteredNameEnd | virtualbox/virtualbox.go:67 | every listed name ends in a digit or '.' |
| VirtualBox.NonNumericOsNeverListed | virtualbox/virtualbox.go:66-76 | "IE8 - WinXP" and "IE7 - Vista" are never listed |
| VirtualBox.GetRegisteredVmNameList | virtualbox/virtualbox.go:53-82 | a run error or a non-zero exit is an error, and so is a scan error. Otherwise the result is the filtered names of the lines, in output order |
| DownloadSteps.Md5Hex | download/download.go:115 | a digest text is 32 lowercase hex digits |
| DownloadSteps.AbsorbConcat | download/download.go:130-135 | writing the bytes to the hasher in two pieces gives the same state as writing them at once, so `io.Copy`'s block size does not matter |
| DownloadSteps.Md5HexInjective | download/download.go:115 | equal digest texts mean equal MD5 sums |
| DownloadSteps.FetchMd5 | download/download.go:59-71 | success exactly when the checksum URL answers in full. The result is the whole body, untrimmed |
| DownloadSteps.FileExists | download/download.go:34-44 | absence is `false` with no error, an openable file is `true`, and any other open failure is an error |
| DownloadSteps.CalcMd5OfFile | download/download.go:118-137 | the digest is "" exactly for a missing file, an error exactly for another open failure, and otherwise the hex MD5 of the contents |
| DownloadSteps.FileExistsAgreesWithCalcMd5 | download/download.go:34-44 | `fileExists` and `calcMd5OfFile` make the same three-way split |
| DownloadSteps.DownloadFileAndCalcMd5 | download/download.go:96-116 | each call requests the content once. Success means the file holds exactly the body and the digest is its hex MD5. An HTTP or create failure leaves the files as they were. No file other than `path` is written or removed |
| DownloadSteps.DownloadFileIfMd5NotMatch | download/download.go:73-94 | at most one content request. Only the file at `path` may be written, and no file is removed. Without a request nothing changes |
| DownloadSteps.DownloadMd5AndFileIfMd5NotMatch | download/download.go:50-57 | at most one content request, and only the file at `path` may be written. A checksum failure is an error that changes nothing |
| DownloadSteps.DownloadFileIfNeeded | download/download.go:46-48 | at most one content request, and only the chunk's local file may be written |
| DownloadSteps.FetchOnlyWhenDigestDiffers | download/download.go:73-80 | an equal local digest returns success with nothing fetched or changed. A different one costs exactly one content request |
| DownloadSteps.OpenFailureStopsEarly | download/download.go:74-77 | a local open failure is returned before anything is fetched or written |
| DownloadSteps.AbsentFileAgainstChecksum | download/download.go:78 | with no local file, the checksum text "" counts as up to date and any other text causes a fetch |
| DownloadSteps.MalformedChecksumNeverAccepted | download/download.go:78-90 | a non-empty checksum text that is not 32 lowercase hex digits always ends in an error |
| DownloadSteps.TrailingWhitespaceNeverAccepted | download/download.go:65-70 | a checksum text ending in whitespace always ends in an error |
| DownloadSteps.DownloadedBodyDecides | download/download.go:83-90 | after a download the file holds the body. A mismatch returns "Md5 unmatched" with both values and keeps the file |
| DownloadSteps.VerifiedAfterSuccess | download/download.go:73-94 | after success the chunk file's digest is the checksum text, when the file can be opened |
| DownloadSteps.ChecksumFailureTouchesNothing | download/download.go:50-55 | a checksum fetch failure is returned with the files and fetch count unchanged |
| DownloadSteps.SecondRunFetchesNothing | download/download.go:50-94 | a second run after a success fetches nothing and changes nothing. It succeeds again when the file can be opened |
| DownloadSteps.NonDirectories | download/download.go:147-149 | keeps exactly the non-directory entries |
| DownloadSteps.Extract | download/download.go:146-166 | no existing file is removed, and a name that cannot be created keeps its old contents |
| DownloadSteps.ExtractWritesEntryNames | download/download.go:146-166 | every file that extraction adds is the base name of a file entry, and a name that can be created |
| DownloadSteps.ExtractIgnoresDirectories | download/download.go:147-149 | directory entries play no part in extraction |
| DownloadSteps.ExtractLastEntryWins | download/download.go:146-166 | with readable, creatable entries, extraction succeeds. Each base name holds the data of the last entry with that name, and other files are untouched |
| DownloadSteps.ExtractStopsAtCreateFailure | download/download.go:157-160 | a create failure ends the loop, and later entries are never consulted |
| DownloadSteps.CreateFailureAfterCleanPrefix | download/download.go:157-160 | a create failure after entries that were all extracted returns success (nil) |
| DownloadSteps.ExtractErrorFromEntry | download/download.go:151-165 | every extraction error names an entry that could not be opened or copied. A create failure is never an error |
| DownloadSteps.UnzipFile | download/download.go:139-168 | unzipping never requests content. A chunk that cannot be opened as a zip archive is an error that changes nothing |
| DownloadSteps.RemoveFile | download/download.go:31 | success exactly for an existing removable file, which is then gone. On failure nothing changes |
| DownloadSteps.DownloadAndBuildOvaFile | download/download.go:21-32 | at most one content request per chunk, and after success the chunk file is gone |
| DownloadSteps.ChunkRemovedOnlyAfterSuccess | download/download.go:21-32 | a download or unzip failure is returned as it is. Success means both steps succeeded and the chunk file is gone |
| DownloadSteps.UpToDateChunkIsNotFetched | download/download.go:21-32 | a chunk that already verifies is built with no content request |
| DownloadSteps.DoesOvaFileExist | download/download.go:17-19 | `false` with no error exactly when `<vmName>.ova` is absent |
| Download.Host.DoesOvaFileExist | download/download.go:17-19 | returns what `DownloadSteps.DoesOvaFileExist` gives, so `false` means the OVA file is absent |
| Download.Host.FileExists | download/download.go:34-44 | returns what `DownloadSteps.FileExists` gives for the current files |
| Download.Host.FetchMd5 | download/download.go:59-71 | returns what `DownloadSteps.FetchMd5` gives |
| Download.Host.CalcMd5OfFile | download/download.go:118-137 | writes the file's bytes to the hasher one at a time, in order, and returns the `DownloadSteps.CalcMd5OfFile` digest |
| Download.Host.DownloadFileAndCalcMd5 | download/download.go:96-116 | creates the file, then copies the body byte by byte into the file and the hasher. The new files, fetch count and result are the `DownloadSteps` transition's |
| Download.Host.DownloadFileIfMd5NotMatch | download/download.go:73-94 | the new state and error are the `DownloadSteps` transition's |
| Download.Host.DownloadMd5AndFileIfMd5NotMatch | download/download.go:50-57 | the new state and error are the `DownloadSteps` transition's |
| Download.Host.DownloadFileIfNeeded | download/download.go:46-48 | the new state and error are the `DownloadSteps` transition's |
| Download.Host.UnzipFile | download/download.go:139-168 | the entry loop writes the same files, and returns the same error, as `Extract` |
| Download.Host.RemoveFile | download/download.go:31 | the new state and error are the `DownloadSteps` transition's |
| Download.Host.DownloadAndBuildOvaFile | download/download.go:21-32 | the new state and error are the `DownloadSteps` transition's |

## Left out

- HTTP: the checksum and content servers are tables from URL to a complete
  or broken body. A missing URL stands for an `http.Get` failure. Status codes
  are not distinguished. As in the code, a 404 or 500 body is used as
  checksum text or written as content.
- MD5 (RFC 1321): the hasher's initial state, its one-byte write and its
  sum are uninterpreted functions of the `World`. The compression function
  is not modelled; the byte-by-byte feeding, the hex rendering and the
  comparisons are.
- Zip parsing is a function from the bytes to an entry list (name, directory
  flag, readable, unopenable or truncated data). File handles and `defer
  Close` are not modelled.
- DownloadSteps.DownloadFileAndCalcMd5: the body is read byte by byte rather
  than in `io.Copy`'s 32 KiB blocks, and a write error after a successful
  create is not modelled.
- DownloadSteps.CalcMd5OfFile: a read error after a successful open is not
  modelled. Open failures are the `openFails` set.
- The success value of `fileExists` on error is always `false` in Go, so
  these pairs are modelled as a `Result`.
- JSON decoding of the manifest: the model starts from decoded records, and
  a `nil` slice in them is `None`.
- Process launches: `VBoxManage` is a function from arguments to how the
  command ended. The `bufio.Scanner` over `list vms` output is a given
  line sequence plus an optional scan error.
- `vmlist.GetBrowsers`, which `GetVmNameList` calls, is not part of this
  model. `GetVmNameList` takes its result as a parameter.
- The HTML scraping package and the command-line program
  `moderniedownloader.go` are not part of this model.
- Progress printing in download/download.go and the order of Go map iteration
  in `init`. `BuildInverse` picks entries in an arbitrary order, and its
  result does not depend on the order.
- ExecUtil.ExitedZeroCases: the outcome type admits an exit error whose wait
  status is 0, which `cmd.Run` never returns on Unix (it builds an
  `*exec.ExitError` only for an unsuccessful exit). This lemma and
  `ExecUtil.Run` treat that value as a successful exit, so the model
  over-approximates the outcomes here.
- VirtualBox.ConfigVmMemory: a non-zero exit reports "VBoxManage import
  failed…", as the code at virtualbox/virtualbox.go:214 writes it.
