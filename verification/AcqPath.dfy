/**
 Acquisition paths: the file name pattern of an acquisition, the directory it stands for, and
 the directory a stream writes its metadata to.
 */
module AcqPath {
  import opened Ascii
  import opened Numerals
  import opened Wrappers
  import opened Replace
  import opened Sequences

  datatype PathError = BadDevice | BadDirectory | NoLastSlash | NoSecondSlash

  const SSD := "/local/acq_data/"
  const NFS := "/frb-archiver-(STREAM)/acq_data/"
  const SUFFIX := "/beam_(BEAM)/chunk_(CHUNK).msg"
  const STREAM := "(STREAM)"

  function LowerChar(c: char): char {
    if 'A' <= c <= 'Z' then (c as int + 32) as char else c
  }

  /** The comparison strcasecmp makes. */
  predicate SameDevice(a: string, b: string) {
    |a| == |b| && forall i :: 0 <= i < |a| ==> LowerChar(a[i]) == LowerChar(b[i])
  }

  /** `directoriesOk` says whether the checks on the file system pass; they throw otherwise. */
  function FilenamePattern(device: string, acq: string, nbeams: nat, directoriesOk: bool): Result<string, PathError> {
    if acq == "" || nbeams == 0 then Success("")
    else if SameDevice(device, "ssd") then
      if directoriesOk then Success(SSD + acq + SUFFIX) else Failure(BadDirectory)
    else if SameDevice(device, "nfs") then
      if directoriesOk then Success(NFS + acq + SUFFIX) else Failure(BadDirectory)
    else Failure(BadDevice)
  }

  /** Devices are the same if their names have the same letters, in whatever case. */
  lemma SameDeviceExact(a: string, b: string)
    ensures SameDevice(a, b) <==>
      |a| == |b| && forall i :: 0 <= i < |a| ==> a[i] == b[i] || CaseOf(a[i], b[i]) || CaseOf(b[i], a[i])
  {
    forall i | 0 <= i < |a| && i < |b|
      ensures LowerChar(a[i]) == LowerChar(b[i]) <==> a[i] == b[i] || CaseOf(a[i], b[i]) || CaseOf(b[i], a[i])
    {
      CasesExact(a[i], b[i]);
    }
  }

  /** `c` is a capital letter and `d` the same one, small. */
  predicate CaseOf(c: char, d: char) {
    exists k :: 0 <= k < 26 && c == UPPER[k] && d == LOWER[k]
  }

  lemma CaseOfExact(c: char, d: char)
    ensures CaseOf(c, d) <==> 'A' <= c <= 'Z' && d as int == c as int + 32
  {
    InOrder(UPPER, 'A', c);
    InOrder(LOWER, 'a', d);
    if 'A' <= c <= 'Z' && d as int == c as int + 32 {
      var k := c as int - 'A' as int;
      assert UPPER[k] == c && LOWER[k] == d;
    }
  }

  lemma CasesExact(c: char, d: char)
    ensures LowerChar(c) == LowerChar(d) <==> c == d || CaseOf(c, d) || CaseOf(d, c)
  {
    CaseOfExact(c, d);
    CaseOfExact(d, c);
  }

  /** The patterns of the two devices, and what has none. */
  lemma PatternExact(device: string, acq: string, nbeams: nat, directoriesOk: bool)
    ensures acq == "" || nbeams == 0 ==> FilenamePattern(device, acq, nbeams, directoriesOk) == Success("")
    ensures acq != "" && nbeams > 0 && SameDevice(device, "ssd") && directoriesOk ==>
      FilenamePattern(device, acq, nbeams, directoriesOk)
      == Success("/local/acq_data/" + acq + "/beam_(BEAM)/chunk_(CHUNK).msg")
    ensures acq != "" && nbeams > 0 && SameDevice(device, "nfs") && directoriesOk ==>
      FilenamePattern(device, acq, nbeams, directoriesOk)
      == Success("/frb-archiver-(STREAM)/acq_data/" + acq + "/beam_(BEAM)/chunk_(CHUNK).msg")
    ensures acq != "" && nbeams > 0 && (SameDevice(device, "ssd") || SameDevice(device, "nfs")) && !directoriesOk ==>
      FilenamePattern(device, acq, nbeams, directoriesOk) == Failure(BadDirectory)
    ensures acq != "" && nbeams > 0 && !SameDevice(device, "ssd") && !SameDevice(device, "nfs") ==>
      FilenamePattern(device, acq, nbeams, directoriesOk) == Failure(BadDevice)
  {
    assert LowerChar("ssd"[0]) != LowerChar("nfs"[0]);
  }

  /** There is no directory without an acquisition, and whatever hinders the pattern hinders the directory. */
  lemma NoMetadataDir(device: string, acq: string, nbeams: nat, directoriesOk: bool, id: int)
    ensures acq == "" || nbeams == 0 ==> MetadataDirOf(device, acq, nbeams, directoriesOk, id) == Failure(NoLastSlash)
    ensures acq != "" && nbeams > 0 && (SameDevice(device, "ssd") || SameDevice(device, "nfs")) && !directoriesOk ==>
      MetadataDirOf(device, acq, nbeams, directoriesOk, id) == Failure(BadDirectory)
    ensures acq != "" && nbeams > 0 && !SameDevice(device, "ssd") && !SameDevice(device, "nfs") ==>
      MetadataDirOf(device, acq, nbeams, directoriesOk, id) == Failure(BadDevice)
  {
    PatternExact(device, acq, nbeams, directoriesOk);
  }

  /** The last slash before `end`. */
  function LastSlash(s: string, end: nat): (r: Option<nat>)
    requires end <= |s|
    ensures r.Some? ==> r.value < end && s[r.value] == '/' && forall j :: r.value < j < end ==> s[j] != '/'
    ensures r.None? ==> forall j :: 0 <= j < end ==> s[j] != '/'
  {
    if end == 0 then None
    else if s[end - 1] == '/' then Some(end - 1)
    else LastSlash(s, end - 1)
  }

  function PatternToDir(pattern: string): Result<string, PathError> {
    match LastSlash(pattern, |pattern|)
    case None => Failure(NoLastSlash)
    case Some(i) =>
      if i == 0 then Failure(NoLastSlash) else
      match LastSlash(pattern, i)
      case None => Failure(NoSecondSlash)
      case Some(j) => if j == 0 then Failure(NoSecondSlash) else Success(pattern[..j])
  }

  predicate NoSlash(s: string) {
    forall i :: 0 <= i < |s| ==> s[i] != '/'
  }

  /** The directory is what is left after the last two path components, and only a pattern of that form has one. */
  lemma DirIsFront(pattern: string, dir: string)
    ensures PatternToDir(pattern) == Success(dir) <==>
            dir != "" && exists a, b :: NoSlash(a) && NoSlash(b) && pattern == dir + "/" + a + "/" + b
  {
    if PatternToDir(pattern) == Success(dir) {
      var i := LastSlash(pattern, |pattern|).value;
      var j := LastSlash(pattern, i).value;
      var a, b := pattern[j + 1..i], pattern[i + 1..];
      assert pattern == pattern[..j] + "/" + a + "/" + b;
      assert NoSlash(a) && NoSlash(b);
    }
    if dir != "" && exists a, b :: NoSlash(a) && NoSlash(b) && pattern == dir + "/" + a + "/" + b {
      var a, b :| NoSlash(a) && NoSlash(b) && pattern == dir + "/" + a + "/" + b;
      DirOfParts(dir, a, b);
    }
  }

  lemma DirOfParts(dir: string, a: string, b: string)
    requires dir != "" && NoSlash(a) && NoSlash(b)
    ensures PatternToDir(dir + "/" + a + "/" + b) == Success(dir)
  {
    var p := dir + "/" + a + "/" + b;
    var j, i := |dir|, |dir| + 1 + |a|;
    assert p[j] == '/' && p[i] == '/';
    assert forall x :: i < x < |p| ==> p[x] == b[x - i - 1];
    assert forall x :: j < x < i ==> p[x] == a[x - j - 1];
    assert LastSlash(p, |p|) == Some(i);
    assert LastSlash(p, i) == Some(j);
    assert p[..j] == dir;
  }

  lemma StreamDisjoint(id: int)
    ensures Disjoint(STREAM, Decimal(id))
  {
    DecimalChars(id);
  }

  /** The directory a stream writes its metadata to: the pattern's, with its own id put in. */
  method MetadataDir(device: string, acq: string, nbeams: nat, directoriesOk: bool, id: int)
    returns (r: Result<string, PathError>)
    ensures r == MetadataDirOf(device, acq, nbeams, directoriesOk, id)
  {
    var pattern := FilenamePattern(device, acq, nbeams, directoriesOk);
    if pattern.Failure? {
      return Failure(pattern.error);
    }
    var dir := PatternToDir(pattern.value);
    if dir.Failure? {
      return Failure(dir.error);
    }
    StreamDisjoint(id);
    DisjointEnds(dir.value, STREAM, Decimal(id));
    var s := ReplaceAll(dir.value, STREAM, Decimal(id));
    r := Success(s);
  }

  function MetadataDirOf(device: string, acq: string, nbeams: nat, directoriesOk: bool, id: int): Result<string, PathError> {
    match FilenamePattern(device, acq, nbeams, directoriesOk)
    case Failure(e) => Failure(e)
    case Success(pattern) =>
      match PatternToDir(pattern)
      case Failure(e) => Failure(e)
      case Success(dir) =>
        StreamDisjoint(id);
        Success(Replaced(dir, STREAM, Decimal(id)))
  }

  /** Nothing that begins with an opening parenthesis starts inside text without one. */
  lemma SkipPlain(a: string, r: string, to: string)
    requires '(' !in a
    ensures Simultaneous(a + r, STREAM, to) == a + Simultaneous(r, STREAM, to)
  {
    forall j | 0 <= j < |a|
      ensures !Occurs(a + r, STREAM, j)
    {
      assert a[j] in a && a[j] == (a + r)[j] && STREAM[0] == '(';
      assert j + |STREAM| <= |a + r| ==> (a + r)[j..j + |STREAM|][0] == a[j];
    }
    SkipClean(a, r, STREAM, to);
  }

  lemma DirOfAcq(base: string, acq: string)
    requires base != ""
    ensures PatternToDir(base + acq + SUFFIX) == Success(base + acq)
  {
    var a, b := "beam_(BEAM)", "chunk_(CHUNK).msg";
    assert SUFFIX == "/" + a + "/" + b;
    Associate(base + acq, "/" + a + "/", b);
    Associate(base + acq, "/" + a, "/");
    Associate(base + acq, "/", a);
    DirOfParts(base + acq, a, b);
  }

  /** Text without an opening parenthesis around the placeholder stays; the placeholder is replaced. */
  lemma SkipAround(head: string, mid: string, acq: string, to: string)
    requires '(' !in head && '(' !in mid
    ensures Simultaneous(head + STREAM + mid + acq, STREAM, to) == head + to + mid + Simultaneous(acq, STREAM, to)
  {
    var rest := STREAM + (mid + acq);
    assert head + STREAM + mid + acq == head + rest;
    SkipPlain(head, rest, to);
    assert Occurs(rest, STREAM, 0) && rest[|STREAM|..] == mid + acq;
    SkipPlain(mid, acq, to);
    var tail := Simultaneous(acq, STREAM, to);
    Associate(head, to, mid + tail);
    Associate(head + to, mid, tail);
  }

  lemma NfsDir(acq: string, to: string)
    ensures Simultaneous(NFS + acq, STREAM, to)
         == "/frb-archiver-" + to + "/acq_data/" + Simultaneous(acq, STREAM, to)
  {
    var head, mid := "/frb-archiver-", "/acq_data/";
    assert NFS == head + STREAM + mid;
    SkipAround(head, mid, acq, to);
  }

  /**
   The metadata directory of every acquisition: the device's base directory with the stream's
   id in it, then the acquisition's name.  Only a name that itself contains the placeholder is
   changed, and then every placeholder in it is replaced once.
   */
  lemma MetadataDirExact(device: string, acq: string, nbeams: nat, id: int)
    requires acq != "" && nbeams > 0
    ensures SameDevice(device, "ssd") ==>
      MetadataDirOf(device, acq, nbeams, true, id)
      == Success("/local/acq_data/" + Simultaneous(acq, "(STREAM)", Decimal(id)))
    ensures !SameDevice(device, "ssd") && SameDevice(device, "nfs") ==>
      MetadataDirOf(device, acq, nbeams, true, id)
      == Success("/frb-archiver-" + Decimal(id) + "/acq_data/" + Simultaneous(acq, "(STREAM)", Decimal(id)))
    ensures (forall j: nat :: !Occurs(acq, "(STREAM)", j)) ==> Simultaneous(acq, "(STREAM)", Decimal(id)) == acq
  {
    var to := Decimal(id);
    StreamDisjoint(id);
    if SameDevice(device, "ssd") {
      DirOfAcq(SSD, acq);
      ReplacedIsSimultaneous(SSD + acq, STREAM, to);
      SkipPlain(SSD, acq, to);
    } else if SameDevice(device, "nfs") {
      DirOfAcq(NFS, acq);
      ReplacedIsSimultaneous(NFS + acq, STREAM, to);
      NfsDir(acq, to);
    }
    if forall j: nat :: !Occurs(acq, STREAM, j) { SimultaneousNone(acq, STREAM, to); }
  }
}
