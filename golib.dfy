/** The parts of Go's standard library whose exact behaviour the core depends
    on: `path.Base`, `strings.Index`, the `%d` and `%x` verbs of `fmt`, and the
    error values that the core creates or passes on. */
module GoLib {

  type byte = b: int | 0 <= b < 256

  /** The Go `error` values met in the core. `Errorf` is anything built by
      `fmt.Errorf` or `errors.New`; the others are the errors returned by the
      network, file-system, archive and process libraries. */
  datatype Error =
    | Errorf(message: string)
    | NetError(url: string)
    | BodyReadError(url: string)
    | PathError(op: string, path: string)
    | ZipFormatError(name: string)
    | ZipEntryError(name: string)
    | ExecError(reason: string)

  // ---------------------------------------------------------------------
  // path.Base

  /** `path` with every trailing '/' removed. */
  function TrimTrailingSlashes(p: string): (r: string)
    ensures r <= p
    ensures r == [] || r[|r| - 1] != '/'
    ensures forall i :: |r| <= i < |p| ==> p[i] == '/'
    decreases |p|
  {
    if |p| > 0 && p[|p| - 1] == '/' then TrimTrailingSlashes(p[..|p| - 1]) else p
  }

  /** `strings.LastIndex(p, "/")`: the position of the last '/', or -1. */
  function LastSlash(p: string): (i: int)
    ensures -1 <= i < |p|
    ensures i >= 0 ==> p[i] == '/'
    ensures forall j :: i < j < |p| ==> p[j] != '/'
    decreases |p|
  {
    if |p| == 0 then -1
    else if p[|p| - 1] == '/' then |p| - 1
    else LastSlash(p[..|p| - 1])
  }

  /** `path.Base`: the last '/'-separated element of `p` once trailing
      slashes are removed; "." for the empty path and "/" for a path made of
      slashes only. */
  function Base(p: string): (r: string)
    ensures r != []
    ensures r == "/" || '/' !in r
    ensures p == "" ==> r == "."
    ensures p != "" && (forall i :: 0 <= i < |p| ==> p[i] == '/') ==> r == "/"
  {
    if p == "" then "."
    else
      var t := TrimTrailingSlashes(p);
      var b := t[LastSlash(t) + 1..];
      if b == "" then "/" else b
  }

  /** A plain file name after any directory prefix is its own base name. */
  lemma BaseOfPlainName(dir: string, name: string)
    requires name != "" && '/' !in name
    ensures Base(name) == name
    ensures Base(dir + "/" + name) == name
  {
    var p := dir + "/" + name;
    assert TrimTrailingSlashes(name) == name;
    assert TrimTrailingSlashes(p) == p by {
      assert p[|p| - 1] == name[|name| - 1];
    }
    assert LastSlash(name) == -1;
    assert p[|dir|] == '/';
    var i := LastSlash(p);
    assert i == |dir| by {
      forall j | |dir| < j < |p| ensures p[j] != '/' {
        assert p[j] == name[j - |dir| - 1];
      }
    }
    assert p[i + 1..] == name;
  }

  /** A trailing slash never changes the base name of a non-empty path. */
  lemma BaseIgnoresTrailingSlash(p: string)
    requires p != ""
    ensures Base(p + "/") == Base(p)
  {
    var q := p + "/";
    assert q[..|q| - 1] == p;
    assert TrimTrailingSlashes(q) == TrimTrailingSlashes(p);
  }

  /** Taking the base name twice gives the same as taking it once. */
  lemma BaseIdempotent(p: string)
    ensures Base(Base(p)) == Base(p)
  {
    var r := Base(p);
    if r == "/" {
      assert TrimTrailingSlashes(r) == [];
    } else if r == "." {
    } else {
      BaseOfPlainName("", r);
    }
  }

  // ---------------------------------------------------------------------
  // strings.Index

  /** `sep` occurs in `s` starting at position `i`. */
  predicate OccursAt(s: string, sep: string, i: int)
  {
    0 <= i && i + |sep| <= |s| && s[i..i + |sep|] == sep
  }

  /** The first occurrence of `sep` in `s` at or after `k`, or -1. */
  function IndexFrom(s: string, sep: string, k: nat): (i: int)
    requires k <= |s|
    ensures i == -1 || (k <= i && OccursAt(s, sep, i))
    ensures forall j :: k <= j && (i == -1 || j < i) ==> !OccursAt(s, sep, j)
    decreases |s| - k
  {
    if k + |sep| > |s| then -1
    else if OccursAt(s, sep, k) then k
    else IndexFrom(s, sep, k + 1)
  }

  /** `strings.Index`: the position of the first occurrence of `sep` in `s`,
      or -1 when there is none. */
  function Index(s: string, sep: string): (i: int)
    ensures i == -1 || OccursAt(s, sep, i)
    ensures forall j :: 0 <= j && (i == -1 || j < i) ==> !OccursAt(s, sep, j)
  {
    IndexFrom(s, sep, 0)
  }

  // ---------------------------------------------------------------------
  // fmt's %d

  predicate IsDecimalDigit(c: char)
  {
    '0' <= c <= '9'
  }

  function DigitChar(d: int): (c: char)
    requires 0 <= d < 10
    ensures IsDecimalDigit(c) && c as int - '0' as int == d
  {
    "0123456789"[d]
  }

  /** The decimal digits of `n`, most significant first, without leading zeros. */
  function NatToDecimal(n: nat): (s: string)
    ensures s != []
    ensures forall i :: 0 <= i < |s| ==> IsDecimalDigit(s[i])
  {
    if n < 10 then [DigitChar(n)] else NatToDecimal(n / 10) + [DigitChar(n % 10)]
  }

  /** What `%d` prints for an `int`. */
  function IntToDecimal(n: int): (s: string)
    ensures s != [] && (s[0] == '-' <==> n < 0)
  {
    if n < 0 then "-" + NatToDecimal(-n) else NatToDecimal(n)
  }

  /** The value of a string of decimal digits: the partner of `NatToDecimal`. */
  function DecimalValue(s: string): int
    requires forall i :: 0 <= i < |s| ==> IsDecimalDigit(s[i])
  {
    if s == [] then 0
    else DecimalValue(s[..|s| - 1]) * 10 + (s[|s| - 1] as int - '0' as int)
  }

  lemma {:induction false} DecimalRoundTrip(n: nat)
    ensures DecimalValue(NatToDecimal(n)) == n
  {
    var s := NatToDecimal(n);
    if n >= 10 {
      DecimalRoundTrip(n / 10);
      assert s[..|s| - 1] == NatToDecimal(n / 10);
    }
  }

  /** A negative number prints as '-' followed by the digits of its magnitude. */
  lemma NegativeDecimal(n: int)
    requires n < 0
    ensures IntToDecimal(n)[1..] == NatToDecimal(-n)
  {
    var s := NatToDecimal(-n);
    assert ("-" + s)[1..] == s;
  }

  /** Distinct naturals have distinct digit strings. */
  lemma NatToDecimalInjective(x: nat, y: nat)
    requires NatToDecimal(x) == NatToDecimal(y)
    ensures x == y
  {
    DecimalRoundTrip(x);
    DecimalRoundTrip(y);
  }

  /** Distinct integers print differently, so a message carrying `%d` of an
      exit code determines the code. */
  lemma IntToDecimalInjective(a: int, b: int)
    requires IntToDecimal(a) == IntToDecimal(b)
    ensures a == b
  {
    var s := IntToDecimal(a);
    if a < 0 {
      assert s[0] == '-';
      assert b < 0 by { assert IntToDecimal(b)[0] == s[0]; }
      NegativeDecimal(a);
      NegativeDecimal(b);
      assert NatToDecimal(-a) == s[1..] == NatToDecimal(-b);
      NatToDecimalInjective(-a, -b);
    } else {
      assert s[0] != '-';
      assert b >= 0 by { assert IntToDecimal(b)[0] == s[0]; }
      assert NatToDecimal(a) == s == NatToDecimal(b);
      NatToDecimalInjective(a, b);
    }
  }

  // ---------------------------------------------------------------------
  // fmt's %x on a byte slice

  predicate IsLowerHexDigit(c: char)
  {
    '0' <= c <= '9' || 'a' <= c <= 'f'
  }

  function HexDigit(d: int): (c: char)
    requires 0 <= d < 16
    ensures IsLowerHexDigit(c) && HexDigitValue(c) == d
  {
    "0123456789abcdef"[d]
  }

  function HexDigitValue(c: char): (d: int)
    requires IsLowerHexDigit(c)
    ensures 0 <= d < 16
  {
    if c <= '9' then c as int - '0' as int else c as int - 'a' as int + 10
  }

  /** `fmt.Sprintf("%x", bs)`: two lowercase hexadecimal digits per byte,
      high nibble first. */
  function Hex(bs: seq<byte>): (s: string)
    ensures |s| == 2 * |bs|
    ensures forall i :: 0 <= i < |s| ==> IsLowerHexDigit(s[i])
  {
    if bs == [] then "" else [HexDigit(bs[0] / 16), HexDigit(bs[0] % 16)] + Hex(bs[1..])
  }

  /** Reads back what `Hex` prints. */
  function Unhex(s: string): (bs: seq<byte>)
    requires |s| % 2 == 0
    requires forall i :: 0 <= i < |s| ==> IsLowerHexDigit(s[i])
  {
    if s == [] then [] else [HexDigitValue(s[0]) * 16 + HexDigitValue(s[1])] + Unhex(s[2..])
  }

  lemma {:induction false} UnhexHex(bs: seq<byte>)
    ensures Unhex(Hex(bs)) == bs
  {
    if bs != [] {
      var s := Hex(bs);
      var b := bs[0];
      assert HexDigitValue(HexDigit(b / 16)) == b / 16;
      assert HexDigitValue(HexDigit(b % 16)) == b % 16;
      assert s[2..] == Hex(bs[1..]);
      UnhexHex(bs[1..]);
    }
  }

  /** Different byte strings print as different hex texts. */
  lemma HexInjective(a: seq<byte>, b: seq<byte>)
    requires Hex(a) == Hex(b)
    ensures a == b
  {
    UnhexHex(a);
    UnhexHex(b);
  }
}
