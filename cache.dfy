/**
 * The cached light sequence: one row of '1'/'0' fields per block, read back
 * with Python's int() on each field, and the name of the cache file kept
 * beside the audio file.
 */
module SyncCache {
  import opened Wrappers
  import opened Threshold

  /** The row recorded in fresh mode: '1' for on, '0' for off. */
  function EncodeRow(on: seq<bool>): (row: seq<string>)
    ensures |row| == |on|
    ensures forall i :: 0 <= i < |on| ==> row[i] == (if on[i] then "1" else "0")
  {
    seq(|on|, i requires 0 <= i < |on| => if on[i] then "1" else "0")
  }

  function EncodeRows(decisions: seq<seq<bool>>): (rows: seq<seq<string>>)
    ensures |rows| == |decisions|
    ensures forall k :: 0 <= k < |rows| ==> rows[k] == EncodeRow(decisions[k])
  {
    seq(|decisions|, k requires 0 <= k < |decisions| => EncodeRow(decisions[k]))
  }

  predicate IsSpace(c: char) {
    c == ' ' || c == '\t' || c == '\n' || c == '\r' || c == '\U{000B}' || c == '\U{000C}'
  }

  predicate IsDigit(c: char) {
    '0' <= c <= '9'
  }

  function StripLeft(s: string): string {
    if s != [] && IsSpace(s[0]) then StripLeft(s[1..]) else s
  }

  function StripRight(s: string): string {
    if s != [] && IsSpace(s[|s| - 1]) then StripRight(s[..|s| - 1]) else s
  }

  predicate AllDigits(s: string) {
    s == [] || (IsDigit(s[0]) && AllDigits(s[1..]))
  }

  predicate HasNonZeroDigit(s: string) {
    s != [] && (s[0] != '0' || HasNonZeroDigit(s[1..]))
  }

  /** The digits int() reads from a field: surrounding whitespace removed,
      then one leading sign and any whitespace after it (Python 2 skips
      whitespace again once the sign is consumed). */
  function Digits(field: string): string {
    var t := StripRight(StripLeft(field));
    if t != [] && (t[0] == '+' || t[0] == '-') then StripLeft(t[1..]) else t
  }

  function Pow10(n: nat): (p: nat)
    ensures p >= 1
  {
    if n == 0 then 1 else 10 * Pow10(n - 1)
  }

  /** The value of a decimal numeral. */
  function NumeralValue(d: string): nat
    requires AllDigits(d)
  {
    if d == [] then 0 else (d[0] as int - '0' as int) * Pow10(|d| - 1) + NumeralValue(d[1..])
  }

  /** A numeral is non-zero exactly when one of its digits is. */
  lemma {:induction false} NonZeroDigitValue(d: string)
    requires AllDigits(d)
    ensures HasNonZeroDigit(d) <==> NumeralValue(d) != 0
  {
    if d != [] {
      NonZeroDigitValue(d[1..]);
      var digit, p := d[0] as int - '0' as int, Pow10(|d| - 1);
      if digit == 0 {
        assert digit * p == 0;
      } else {
        assert digit * p >= p;
      }
    }
  }

  /** Python's int() on a cached field, reduced to what the replay uses:
      None when int() raises (not an optionally signed decimal numeral
      between optional whitespace), otherwise whether the value is non-zero;
      a sign never changes whether it is. */
  function FieldOn(field: string): (r: Option<bool>)
    ensures r.Some? <==> Digits(field) != [] && AllDigits(Digits(field))
    ensures r.Some? ==> (r.value <==> NumeralValue(Digits(field)) != 0)
  {
    var d := Digits(field);
    if d != [] && AllDigits(d) then
      NonZeroDigitValue(d);
      Some(HasNonZeroDigit(d))
    else None
  }

  /** What the recorded fields decode to. */
  lemma FieldOnEncoded()
    ensures FieldOn("1") == Some(true) && FieldOn("0") == Some(false)
  {
    assert StripRight(StripLeft("1")) == "1";
    assert StripRight(StripLeft("0")) == "0";
  }

  /** Whitespace between the sign and the digits is accepted: "- 1" is -1,
      a light on, and "+ 0" is 0, a light off. */
  lemma FieldOnSpacedSign()
    ensures FieldOn("- 1") == Some(true) && FieldOn("+ 0") == Some(false)
  {
    assert StripRight(StripLeft("- 1")) == "- 1";
    assert StripLeft(" 1") == "1";
    assert StripRight(StripLeft("+ 0")) == "+ 0";
    assert StripLeft(" 0") == "0";
  }

  /** Field j of a cached row exists and int() accepts it. */
  predicate FieldReadable(entry: seq<string>, j: nat) {
    j < |entry| && FieldOn(entry[j]).Some?
  }

  /** The truth value of a readable field. */
  function FieldValue(entry: seq<string>, j: nat): bool
    requires FieldReadable(entry, j)
  {
    FieldOn(entry[j]).value
  }

  /** The first channel from i on whose field is missing or not an integer
      (where the replay loop raises), or 8 when there is none. */
  function FirstBadFrom(entry: seq<string>, i: nat): (k: nat)
    requires i <= Channels
    ensures i <= k <= Channels
    ensures forall j :: i <= j < k ==> FieldReadable(entry, j)
    ensures k < Channels ==> !FieldReadable(entry, k)
    decreases Channels - i
  {
    if i == Channels || !FieldReadable(entry, i) then i
    else FirstBadFrom(entry, i + 1)
  }

  function FirstBad(entry: seq<string>): nat {
    FirstBadFrom(entry, 0)
  }

  /** The first bad field is the k before which every field is readable
      and at which (if k < 8) one is not. */
  lemma {:induction false} FirstBadIs(entry: seq<string>, i: nat, k: nat)
    requires i <= k <= Channels
    requires forall j :: i <= j < k ==> FieldReadable(entry, j)
    requires k < Channels ==> !FieldReadable(entry, k)
    ensures FirstBadFrom(entry, i) == k
    decreases k - i
  {
    if i < k {
      FirstBadIs(entry, i + 1, k);
    }
  }

  predicate RowReadable(entry: seq<string>) {
    FirstBad(entry) == Channels
  }

  /** The lights after replaying one cached row: channels before the first
      bad field take the field's truth value, the rest keep their state. */
  function ReplayRow(lights: seq<bool>, entry: seq<string>): (r: seq<bool>)
    requires |lights| == Channels
    ensures |r| == Channels
    ensures r[FirstBad(entry)..] == lights[FirstBad(entry)..]
    ensures RowReadable(entry) ==> forall j :: 0 <= j < Channels ==> r[j] == FieldValue(entry, j)
  {
    var k := FirstBad(entry);
    seq(Channels, j requires 0 <= j < Channels => if j < k then FieldValue(entry, j) else lights[j])
  }

  /** A row is readable exactly when it has at least 8 fields and the first
      8 are integers; the lights then follow those fields alone. */
  lemma ReplayRowReadable(lights: seq<bool>, entry: seq<string>)
    requires |lights| == Channels
    ensures RowReadable(entry) <==> forall j :: 0 <= j < Channels ==> FieldReadable(entry, j)
    ensures RowReadable(entry) ==>
      forall j :: 0 <= j < Channels ==> ReplayRow(lights, entry)[j] == FieldValue(entry, j)
  {
    if !RowReadable(entry) {
      var k := FirstBad(entry);
      assert k < Channels;
    }
  }

  /** The values int() gives the leading fields of a cached row, up to the
      first field it rejects: eight values exactly when the row is readable. */
  function DecodeRow(entry: seq<string>): (v: seq<bool>)
    ensures |v| == FirstBad(entry) && |v| <= Channels
  {
    seq(FirstBad(entry), j requires 0 <= j < FirstBad(entry) => FieldValue(entry, j))
  }

  /** Lights after decoded values are applied: the decoded channels take
      their values, the rest keep their state. */
  function Overlay(lights: seq<bool>, v: seq<bool>): (r: seq<bool>)
    requires |v| <= |lights|
    ensures |r| == |lights|
  {
    v + lights[|v|..]
  }

  /** Replaying a row is overlaying its decoded values, and the row is
      readable exactly when all eight decode. */
  lemma ReplayRowDecoded(lights: seq<bool>, entry: seq<string>)
    requires |lights| == Channels
    ensures ReplayRow(lights, entry) == Overlay(lights, DecodeRow(entry))
    ensures RowReadable(entry) <==> |DecodeRow(entry)| == Channels
  {
    var r, o := ReplayRow(lights, entry), Overlay(lights, DecodeRow(entry));
    forall j | 0 <= j < Channels
      ensures r[j] == o[j]
    {
    }
  }

  /** Decoding a recorded row gives back the decisions that produced it,
      whatever the lights showed before. */
  lemma ReplayEncoded(lights: seq<bool>, on: seq<bool>)
    requires |lights| == Channels && |on| == Channels
    ensures RowReadable(EncodeRow(on))
    ensures ReplayRow(lights, EncodeRow(on)) == on
  {
    var row := EncodeRow(on);
    FieldOnEncoded();
    assert forall j :: 0 <= j < Channels ==> FieldReadable(row, j) && FieldValue(row, j) == on[j];
    ReplayRowReadable(lights, row);
  }

  /** A recorded row decodes to the decisions that produced it. */
  lemma DecodeEncoded(on: seq<bool>)
    requires |on| == Channels
    ensures DecodeRow(EncodeRow(on)) == on
  {
    ReplayEncoded(on, on);
    ReplayRowDecoded(on, EncodeRow(on));
    var v := DecodeRow(EncodeRow(on));
    assert on == v + on[|v|..];
    assert on[|v|..] == [];
  }

  /** Position just after the last '/', or 0 when there is none. */
  function LastSlashEnd(p: string): (r: nat)
    ensures r <= |p|
    ensures r > 0 ==> p[r - 1] == '/'
    ensures forall j :: r <= j < |p| ==> p[j] != '/'
  {
    if p == [] then 0
    else if p[|p| - 1] == '/' then |p|
    else LastSlashEnd(p[..|p| - 1])
  }

  predicate AllSlashes(s: string) {
    forall j :: 0 <= j < |s| ==> s[j] == '/'
  }

  function RStripSlashes(s: string): (r: string)
    ensures |r| <= |s| && r == s[..|r|]
    ensures forall j :: |r| <= j < |s| ==> s[j] == '/'
    ensures r == [] || r[|r| - 1] != '/'
  {
    if s != [] && s[|s| - 1] == '/' then RStripSlashes(s[..|s| - 1]) else s
  }

  /** posixpath.dirname: everything up to the last '/', with trailing
      slashes removed unless it is all slashes. */
  function Dirname(p: string): (d: string)
    ensures |d| <= LastSlashEnd(p) && d == p[..|d|]
    ensures forall j :: |d| <= j < LastSlashEnd(p) ==> p[j] == '/'
    ensures d == [] || d[|d| - 1] != '/' || AllSlashes(d)
    ensures AllSlashes(p[..LastSlashEnd(p)]) ==> d == p[..LastSlashEnd(p)]
  {
    var head := p[..LastSlashEnd(p)];
    if head != [] && !AllSlashes(head) then RStripSlashes(head) else head
  }

  /** posixpath.basename: the longest suffix without a '/'. */
  function Basename(p: string): (b: string)
    ensures |b| <= |p| && b == p[|p| - |b|..]
    ensures forall j :: 0 <= j < |b| ==> b[j] != '/'
    ensures |b| < |p| ==> p[|p| - |b| - 1] == '/'
  {
    p[LastSlashEnd(p)..]
  }

  /** The cache of an audio file: a hidden ".sync.gz" file in its directory. */
  function CacheFilename(p: string): (c: string)
    ensures Basename(c) == CacheName(Basename(p))
  {
    var d, name := Dirname(p), CacheName(Basename(p));
    BasenameJoined(d, name);
    d + "/" + name
  }

  /** The cache's own name for a base name b; like b, it holds no '/'. */
  function CacheName(b: string): (name: string)
    requires forall j :: 0 <= j < |b| ==> b[j] != '/'
    ensures forall j :: 0 <= j < |name| ==> name[j] != '/'
  {
    "." + b + ".sync.gz"
  }

  /** The base name of x + "/" + y, for y without a '/', is y. */
  lemma BasenameJoined(x: string, y: string)
    requires forall j :: 0 <= j < |y| ==> y[j] != '/'
    ensures Basename(x + "/" + y) == y
  {
    LastSlashEndAfter(x, y);
    var c := x + "/" + y;
    assert c[|x| + 1..] == y;
  }

  lemma {:induction false} LastSlashEndAfter(x: string, y: string)
    requires forall j :: 0 <= j < |y| ==> y[j] != '/'
    ensures LastSlashEnd(x + "/" + y) == |x| + 1
    decreases |y|
  {
    var s := x + "/" + y;
    if y != [] {
      assert s[..|s| - 1] == x + "/" + y[..|y| - 1];
      LastSlashEndAfter(x, y[..|y| - 1]);
    } else {
      assert s[|s| - 1] == '/';
    }
  }

  /** Joining a directory that does not end in '/' with a name that holds no
      '/' splits back into that directory and that name. */
  lemma SplitJoined(d: string, name: string)
    requires d != [] && d[|d| - 1] != '/'
    requires forall j :: 0 <= j < |name| ==> name[j] != '/'
    ensures Dirname(d + "/" + name) == d
    ensures Basename(d + "/" + name) == name
  {
    var c := d + "/" + name;
    LastSlashEndAfter(d, name);
    var head := c[..|d| + 1];
    assert head == d + "/";
    assert head[|d| - 1] != '/';
    assert !AllSlashes(head);
    assert head[..|head| - 1] == d;
    assert c[|d| + 1..] == name;
  }

  /** For a file not directly under the root, the cache lands in the same
      directory as the audio file, under "." + its base name + ".sync.gz". */
  lemma CacheBesideSource(p: string)
    requires !AllSlashes(p[..LastSlashEnd(p)])
    ensures Dirname(CacheFilename(p)) == Dirname(p)
    ensures Basename(CacheFilename(p)) == CacheName(Basename(p))
  {
    var d := Dirname(p);
    assert d != [] && d[|d| - 1] != '/' by {
      assert d == RStripSlashes(p[..LastSlashEnd(p)]);
    }
    SplitJoined(d, CacheName(Basename(p)));
  }

  /** For a file directly under the root (or with no directory part), the
      directory part is all slashes and the cache's directory part is that
      plus one more '/': "/x" gives "//.x.sync.gz", whose dirname is "//". */
  lemma CacheAtRoot(p: string)
    requires AllSlashes(p[..LastSlashEnd(p)])
    ensures Dirname(CacheFilename(p)) == p[..LastSlashEnd(p)] + "/"
  {
    var head, name := p[..LastSlashEnd(p)], CacheName(Basename(p));
    assert Dirname(p) == head;
    var c := head + "/" + name;
    LastSlashEndAfter(head, name);
    assert c[..|head| + 1] == head + "/";
    assert AllSlashes(head + "/");
  }
}
