/** The file name of every rendered frame: camera, underscore, and the output pattern with the frame number in it. */
module OutputNames {
  import opened Decimals
  import opened Grid
  import opened RenderJobs
  import opened RenderDriver

  // ---------------------------------------------------------------------------
  // Numbers
  // ---------------------------------------------------------------------------

  /** Python's str of an integer. */
  function Str(n: int): string {
    if n < 0 then "-" + Decimal(-n) else Decimal(n)
  }

  function Zeros(n: nat): string {
    if n == 0 then [] else Zeros(n - 1) + ['0']
  }

  /** str.zfill: zeros on the left, after a sign. */
  function ZFill(s: string, width: nat): string {
    if |s| >= width then s
    else if s != [] && (s[0] == '-' || s[0] == '+') then [s[0]] + (Zeros(width - |s|) + s[1..])
    else Zeros(width - |s|) + s
  }

  function Parsed(s: string): int {
    if s != [] && s[0] == '-' then -Val(s[1..]) else Val(s)
  }

  lemma {:induction false} LeadingZeros(k: nat, s: string)
    ensures Val(Zeros(k) + s) == Val(s)
    decreases |s|, k
  {
    if s != [] {
      LeadingZeros(k, s[..|s| - 1]);
      assert (Zeros(k) + s)[..|Zeros(k) + s| - 1] == Zeros(k) + s[..|s| - 1];
    } else if k > 0 {
      LeadingZeros(k - 1, []);
      assert Zeros(k - 1) + [] == Zeros(k - 1);
      assert (Zeros(k) + s)[..|Zeros(k) + s| - 1] == Zeros(k - 1);
    }
  }

  lemma {:induction false} ZerosAreZeros(k: nat)
    ensures |Zeros(k)| == k && forall c :: c in Zeros(k) ==> c == '0'
  {
    if k > 0 { ZerosAreZeros(k - 1); }
  }

  predicate IsNumeral(s: string) { forall c :: c in s ==> c == '-' || '0' <= c <= '9' }

  /** Padding loses nothing: the padded number reads back, whatever the width, and consists of digits and signs. */
  lemma PaddedReadsBack(n: int, width: nat)
    ensures Parsed(ZFill(Str(n), width)) == n
    ensures IsNumeral(ZFill(Str(n), width))
  {
    var m := if n < 0 then -n else n;
    DecimalReadsBack(m);
    if n < 0 { PaddedNegative(Decimal(m), width); } else { PaddedNatural(Decimal(m), width); }
  }

  lemma PaddedNatural(d: string, width: nat)
    requires d != [] && forall c :: c in d ==> '0' <= c <= '9'
    ensures Parsed(ZFill(d, width)) == Val(d)
    ensures IsNumeral(ZFill(d, width))
  {
    var k := if |d| < width then width - |d| else 0;
    FirstIsDigit(d);
    assert d[0] != '-' && d[0] != '+';
    if |d| >= width {
      assert ZFill(d, width) == d && Zeros(0) == [];
      assert d == [] + d;
    } else {
      assert ZFill(d, width) == Zeros(k) + d;
    }
    ZeroPadded(k, d);
  }

  lemma FirstIsDigit(d: string)
    requires d != [] && forall c :: c in d ==> '0' <= c <= '9'
    ensures '0' <= d[0] <= '9'
  {
    assert d[0] in d;
  }

  lemma ZeroPadded(k: nat, d: string)
    requires d != [] && forall c :: c in d ==> '0' <= c <= '9'
    ensures Val(Zeros(k) + d) == Val(d)
    ensures forall c :: c in Zeros(k) + d ==> '0' <= c <= '9'
    ensures Parsed(Zeros(k) + d) == Val(d)
  {
    LeadingZeros(k, d);
    ZerosAreZeros(k);
    FirstIsDigit(Zeros(k) + d);
  }

  lemma PaddedNegative(d: string, width: nat)
    requires d != [] && forall c :: c in d ==> '0' <= c <= '9'
    ensures Parsed(ZFill("-" + d, width)) == -Val(d)
    ensures IsNumeral(ZFill("-" + d, width))
  {
    var k := if |d| + 1 < width then width - (|d| + 1) else 0;
    assert Zeros(0) + d == d;
    NegativeFill(d, width, k);
    ZeroPadded(k, d);
    SignedParses(Zeros(k) + d);
  }

  lemma NegativeFill(d: string, width: nat, k: nat)
    requires k == if |d| + 1 < width then width - (|d| + 1) else 0
    requires Zeros(0) + d == d
    ensures ZFill("-" + d, width) == "-" + (Zeros(k) + d)
  {
    assert ("-" + d)[1..] == d;
  }

  lemma SignedParses(digits: string)
    requires forall c :: c in digits ==> '0' <= c <= '9'
    ensures Parsed("-" + digits) == -Val(digits) && IsNumeral("-" + digits)
  {
    assert ("-" + digits)[1..] == digits;
  }

  /** A number from 0 on is padded with zeros to the width, and is written without any if it is wider. */
  lemma PaddedToWidth(n: nat, width: nat)
    ensures var z := ZFill(Str(n), width);
      && (forall c :: c in z ==> '0' <= c <= '9') && Val(z) == n
      && |z| >= width && (|z| > width && |z| > 1 ==> z[0] != '0')
  {
    DecimalReadsBack(n);
    NoLeadingZero(n);
    hide Decimal, Val, Zeros;
    var d := Decimal(n);
    FirstIsDigit(d);
    if |d| < width { ZeroPadded(width - |d|, d); ZerosAreZeros(width - |d|); }
  }

  lemma {:induction false} NoLeadingZero(n: nat)
    ensures Decimal(n) != [] && (n > 0 ==> Decimal(n)[0] != '0') && (n == 0 ==> Decimal(n) == "0")
  {
    if n >= 10 { NoLeadingZero(n / 10); }
  }

  // ---------------------------------------------------------------------------
  // Paths (os.path on POSIX)
  // ---------------------------------------------------------------------------

  /** The length of everything up to and including the last slash. */
  function AfterSlash(p: string): (i: nat)
    ensures i <= |p|
  {
    if p == [] then 0 else if p[|p| - 1] == '/' then |p| else AfterSlash(p[..|p| - 1])
  }

  lemma {:induction false} AfterSlashIsLast(p: string)
    ensures var i := AfterSlash(p); '/' !in p[i..] && (i > 0 ==> p[i - 1] == '/')
  {
    if p != [] && p[|p| - 1] != '/' {
      AfterSlashIsLast(p[..|p| - 1]);
      var i := AfterSlash(p);
      assert p[i..] == p[..|p| - 1][i..] + [p[|p| - 1]];
    }
  }

  predicate AllSlashes(p: string) { forall c :: c in p ==> c == '/' }

  function DropSlashes(p: string): string {
    if p != [] && p[|p| - 1] == '/' then DropSlashes(p[..|p| - 1]) else p
  }

  /** os.path.split. */
  function Split(p: string): (string, string) {
    var i := AfterSlash(p);
    var head := p[..i];
    (if AllSlashes(head) then head else DropSlashes(head), p[i..])
  }

  /** os.path.join. */
  function Join(head: string, tail: string): string {
    if tail != [] && tail[0] == '/' then tail
    else if head == [] || head[|head| - 1] == '/' then head + tail
    else head + "/" + tail
  }

  function Basename(p: string): string { p[AfterSlash(p)..] }

  // ---------------------------------------------------------------------------
  // Names
  // ---------------------------------------------------------------------------

  predicate IsSafe(c: char) {
    'A' <= c <= 'Z' || 'a' <= c <= 'z' || '0' <= c <= '9' || c == '.' || c == '_' || c == '-'
  }

  function Replaced(s: string): string {
    if s == [] then [] else [if IsSafe(s[0]) then s[0] else '_'] + Replaced(s[1..])
  }

  /** _sanitize_camera_name. */
  function Sanitized(name: string): (r: string)
    ensures r != []
  {
    var safe := Replaced(Strip(name));
    if safe == [] then "camera" else safe
  }

  predicate AllSafe(s: string) { forall c :: c in s ==> IsSafe(c) }

  lemma {:induction false} ReplacedCharacters(s: string)
    ensures |Replaced(s)| == |s| && AllSafe(Replaced(s))
    ensures forall k :: 0 <= k < |s| ==> Replaced(s)[k] == if IsSafe(s[k]) then s[k] else '_'
  {
    if s != [] { ReplacedCharacters(s[1..]); }
  }

  lemma UpperCase(c: char)
    ensures 'A' <= c <= 'Z' <==> c in "ABCDEFGHIJKLMNOPQRSTUVWXYZ"
  {
  }

  lemma LowerCase(c: char)
    ensures 'a' <= c <= 'z' <==> c in "abcdefghijklmnopqrstuvwxyz"
  {
  }

  lemma SafeCharacters(c: char)
    ensures IsSafe(c) <==>
      c in "ABCDEFGHIJKLMNOPQRSTUVWXYZ" || c in "abcdefghijklmnopqrstuvwxyz" || '0' <= c <= '9' || c in "._-"
  {
    UpperCase(c);
    LowerCase(c);
  }

  /** A sanitised name is safe throughout; it is the name without its outer white space, character by character, with safe ones
      kept and an underscore for the rest, and "camera" if that is nothing. */
  lemma SanitizedIsSafe(name: string)
    ensures AllSafe(Sanitized(name))
    ensures var s, r := Strip(name), Sanitized(name);
      if s == "" then r == "camera"
      else |r| == |s| && forall k :: 0 <= k < |s| ==> r[k] == if IsSafe(s[k]) then s[k] else '_'
  {
    ReplacedCharacters(Strip(name));
  }

  /** _camera_prefixed_base. */
  function PrefixedBase(base: string, camera: string): string {
    var safe := Sanitized(camera);
    var (head, tail) := Split(base);
    var tail' := if tail != [] then safe + "_" + tail else safe + "_" + "frame####";
    if head != [] then Join(head, tail') else tail'
  }

  /** Where the first run of # starts; the length if there is none. */
  function HashStart(p: string): (i: nat)
    ensures i <= |p|
  {
    if p == [] || p[0] == '#' then 0 else 1 + HashStart(p[1..])
  }

  /** Where the run of # that starts at i ends. */
  function HashEnd(p: string, i: nat): (j: nat)
    requires i <= |p|
    ensures i <= j <= |p|
    decreases |p| - i
  {
    if i < |p| && p[i] == '#' then HashEnd(p, i + 1) else i
  }

  /** The two functions above delimit the leftmost longest run of #. */
  lemma {:induction false} FirstRun(p: string)
    ensures var i := HashStart(p);
      && '#' !in p[..i] && (i < |p| ==> p[i] == '#' && HashEnd(p, i) > i)
  {
    if p != [] && p[0] != '#' {
      FirstRun(p[1..]);
      var i := HashStart(p);
      assert p[..i] == [p[0]] + p[1..][..i - 1];
    }
  }

  lemma {:induction false} RunOfHashes(p: string, i: nat)
    requires i <= |p|
    ensures var j := HashEnd(p, i);
      (forall k :: i <= k < j ==> p[k] == '#') && (j < |p| ==> p[j] != '#')
    decreases |p| - i
  {
    if i < |p| && p[i] == '#' { RunOfHashes(p, i + 1); }
  }

  /** Where a path takes its frame number: the text before it, the width it is padded to, the text after it. */
  function Cuts(p: string): (string, nat, string)
    requires p != []
  {
    var i := HashStart(p);
    if i < |p| then (p[..i], HashEnd(p, i) - i, p[HashEnd(p, i)..])
    else if p[|p| - 1] == '/' || p[|p| - 1] == '\\' then (p + "frame", 4, "")
    else (p, 4, "")
  }

  function Filled(cuts: (string, nat, string), frame: int): string {
    cuts.0 + ZFill(Str(frame), cuts.1) + cuts.2
  }

  /** _filepath_for_frame. */
  function FilePath(base: string, frame: int): string {
    Filled(Cuts(if base == [] then "/output/frame####" else base), frame)
  }

  /** The base name of one rendered frame, before its extension. */
  function FrameName(base: string, camera: string, frame: int): string {
    Basename(FilePath(PrefixedBase(base, camera), frame))
  }

  // ---------------------------------------------------------------------------
  // What a name looks like when the directory has no #
  // ---------------------------------------------------------------------------

  /** The file part of the pattern. */
  function FilePart(base: string): (t: string)
    ensures t != []
  {
    var tail := Split(base).1;
    if tail != [] then tail else "frame####"
  }

  lemma FilePartHasNoSlash(base: string)
    ensures '/' !in FilePart(base)
  {
    AfterSlashIsLast(base);
  }

  lemma {:induction false} BasenameOfPrefixed(h: string, x: string)
    requires '/' !in x && (h == [] || h[|h| - 1] == '/')
    ensures AfterSlash(h + x) == |h|
    ensures Basename(h + x) == x
  {
    if x == [] {
      assert h + x == h;
    } else {
      assert x[|x| - 1] in x;
      assert (h + x)[..|h + x| - 1] == h + x[..|x| - 1];
      BasenameOfPrefixed(h, x[..|x| - 1]);
    }
  }

  lemma {:induction false} HashStartShifts(h: string, t: string)
    requires '#' !in h
    ensures HashStart(h + t) == |h| + HashStart(t)
  {
    if h == [] {
      assert h + t == t;
    } else {
      assert (h + t)[1..] == h[1..] + t;
      HashStartShifts(h[1..], t);
    }
  }

  lemma {:induction false} HashEndShifts(h: string, t: string, i: nat)
    requires i <= |t|
    ensures HashEnd(h + t, |h| + i) == |h| + HashEnd(t, i)
    decreases |t| - i
  {
    if i < |t| && t[i] == '#' { HashEndShifts(h, t, i + 1); }
  }

  /** Text without # in front of a pattern without slashes stays in front. */
  lemma CutsShift(h: string, t: string)
    requires '#' !in h && t != [] && '/' !in t
    ensures var (before, width, after) := Cuts(t); Cuts(h + t) == (h + before, width, after)
  {
    HashStartShifts(h, t);
    if HashStart(t) < |t| { CutsShiftHash(h, t); } else { CutsShiftPlain(h, t); }
  }

  lemma CutsShiftHash(h: string, t: string)
    requires HashStart(t) < |t| && HashStart(h + t) == |h| + HashStart(t)
    ensures var (before, width, after) := Cuts(t); Cuts(h + t) == (h + before, width, after)
  {
    var i := HashStart(t);
    var j := HashEnd(t, i);
    HashEndShifts(h, t, i);
    SliceShift(h, t, i, j);
    CutsAt(t, i, j);
    CutsAt(h + t, |h| + i, |h| + j);
    var c, c' := Cuts(t), Cuts(h + t);
    assert c'.0 == h + c.0;
    assert c'.1 == c.1;
    assert c'.2 == c.2;
  }

  lemma CutsAt(p: string, i: nat, j: nat)
    requires i == HashStart(p) < |p| && j == HashEnd(p, i)
    ensures Cuts(p) == (p[..i], j - i, p[j..])
  {
  }

  lemma SliceShift(h: string, t: string, i: nat, j: nat)
    requires i <= j <= |t|
    ensures (h + t)[..|h| + i] == h + t[..i] && (h + t)[|h| + j..] == t[j..]
  {
  }

  lemma CutsShiftPlain(h: string, t: string)
    requires HashStart(t) == |t| > 0 && HashStart(h + t) == |h| + HashStart(t)
    ensures var (before, width, after) := Cuts(t); Cuts(h + t) == (h + before, width, after)
  {
    var p := h + t;
    assert p[|p| - 1] == t[|t| - 1];
    assert p + "frame" == h + (t + "frame");
  }

  /** A directory part, empty or ending in a slash, in front of the file part. */
  function Directory(base: string): (h: string)
    ensures h == [] || h[|h| - 1] == '/'
  {
    var head := Split(base).0;
    if head == [] || head[|head| - 1] == '/' then head else head + "/"
  }

  lemma PrefixedIsDirectoryThenFile(base: string, camera: string)
    ensures PrefixedBase(base, camera) == Directory(base) + (Sanitized(camera) + "_" + FilePart(base))
    ensures '/' !in Sanitized(camera) + "_" && '#' !in Sanitized(camera) + "_"
  {
    var safe, head := Sanitized(camera), Split(base).0;
    SanitizedIsSafe(camera);
    assert safe[0] in safe;
    var file := safe + "_" + FilePart(base);
    assert file[0] == safe[0];
    assert head + "/" + file == (head + "/") + file;
  }

  /** With no # in the directory: camera, underscore, the file part filled in. */
  lemma NameShape(base: string, camera: string, frame: int)
    requires '#' !in Split(base).0
    ensures var (before, width, after) := Cuts(FilePart(base));
      FrameName(base, camera, frame) == Sanitized(camera) + "_" + before + ZFill(Str(frame), width) + after
  {
    PrefixedIsDirectoryThenFile(base, camera);
    FilePartHasNoSlash(base);
    FilledName(Directory(base), Sanitized(camera) + "_", FilePart(base), frame);
  }

  lemma FilledName(h: string, front: string, t: string, frame: int)
    requires '#' !in h && (h == [] || h[|h| - 1] == '/')
    requires '#' !in front && '/' !in front && t != [] && '/' !in t
    ensures var (before, width, after) := Cuts(t);
      Basename(FilePath(h + (front + t), frame)) == front + before + ZFill(Str(frame), width) + after
  {
    var (before, width, after) := Cuts(t);
    CutsShift(front, t);
    CutsShift(h, front + t);
    NoSlashInCuts(t);
    PaddedReadsBack(frame, width);
    NumberInName(h, front, before, ZFill(Str(frame), width), after);
  }

  lemma NumberInName(h: string, front: string, before: string, z: string, after: string)
    requires '/' !in front && '/' !in before && '/' !in z && '/' !in after && (h == [] || h[|h| - 1] == '/')
    ensures Basename(h + (front + before) + z + after) == front + before + z + after
  {
    var x := front + before + z + after;
    assert h + (front + before) + z + after == h + x;
    BasenameOfPrefixed(h, x);
  }

  lemma NoSlashInCuts(t: string)
    requires t != [] && '/' !in t
    ensures '/' !in Cuts(t).0 && '/' !in Cuts(t).2
  {
  }

  // ---------------------------------------------------------------------------
  // Names of different frames differ
  // ---------------------------------------------------------------------------

  /** How many characters follow the last underscore. */
  function AfterUnderscore(s: string): nat {
    if s == [] || s[|s| - 1] == '_' then 0 else 1 + AfterUnderscore(s[..|s| - 1])
  }

  lemma {:induction false} FrontDoesNotMatter(front: string, s: string)
    requires '_' in s
    ensures AfterUnderscore(front + s) == AfterUnderscore(s)
  {
    if s[|s| - 1] != '_' {
      assert (front + s)[..|front + s| - 1] == front + s[..|s| - 1];
      FrontDoesNotMatter(front, s[..|s| - 1]);
    }
  }

  lemma {:induction false} NumberAddsItsLength(s: string, z: string)
    requires '_' !in z
    ensures AfterUnderscore(s + z) == AfterUnderscore(s) + |z|
  {
    if z == [] {
      assert s + z == s;
    } else {
      assert z[|z| - 1] in z;
      assert (s + z)[..|s + z| - 1] == s + z[..|z| - 1];
      NumberAddsItsLength(s, z[..|z| - 1]);
    }
  }

  /** Two names with the same pattern are equal only if their numbers are: what precedes the number always contains an
      underscore, so the number's length can be read off the name. */
  lemma SameNameIffSameNumber(a: string, b: string, before: string, y: string, z: string, after: string)
    requires '_' !in y && '_' !in z
    ensures a + "_" + before + y + after == b + "_" + before + z + after ==> y == z
  {
    if a + "_" + before + y + after == b + "_" + before + z + after {
      SameNameSameNumber(a, b, before, y, z, after);
    }
  }

  lemma SameNameSameNumber(a: string, b: string, before: string, y: string, z: string, after: string)
    requires '_' !in y && '_' !in z
    requires a + "_" + before + y + after == b + "_" + before + z + after
    ensures y == z
  {
    var left, right := a + "_" + before + y, b + "_" + before + z;
    assert left == (left + after)[..|left + after| - |after|];
    assert right == (right + after)[..|right + after| - |after|];
    assert left == right;
    var mid := "_" + before;
    assert mid[0] == '_';
    assert left == a + (mid + y) && right == b + (mid + z);
    assert (mid + y)[0] == '_' && (mid + z)[0] == '_';
    FrontDoesNotMatter(a, mid + y);
    FrontDoesNotMatter(b, mid + z);
    NumberAddsItsLength(mid, y);
    NumberAddsItsLength(mid, z);
    assert |y| == |z|;
    assert y == left[|left| - |y|..] && z == right[|right| - |z|..];
  }

  /** With no # in the directory, different frames never share a name: not for cameras whose names sanitise alike, not
      for names that contain the pattern, not for numbers wider than the padding. */
  lemma FramesHaveOwnNames(base: string, c: string, d: string, f: int, g: int)
    requires '#' !in Split(base).0 && f != g
    ensures FrameName(base, c, f) != FrameName(base, d, g)
  {
    NameShape(base, c, f);
    NameShape(base, d, g);
    var (before, width, after) := Cuts(FilePart(base));
    var y, z := ZFill(Str(f), width), ZFill(Str(g), width);
    PaddedReadsBack(f, width);
    PaddedReadsBack(g, width);
    SameNameIffSameNumber(Sanitized(c), Sanitized(d), before, y, z, after);
  }

  /** With a # in the directory the number goes there, and the name is the same for every frame of a camera. */
  lemma HashInDirectoryHidesNumber(base: string, camera: string, f: int, g: int)
    requires '#' in Split(base).0
    ensures FrameName(base, camera, f) == FrameName(base, camera, g)
  {
    NameWithoutNumber(base, camera, f);
    NameWithoutNumber(base, camera, g);
  }

  lemma NameWithoutNumber(base: string, camera: string, frame: int)
    requires '#' in Split(base).0
    ensures FrameName(base, camera, frame) == Sanitized(camera) + "_" + FilePart(base)
  {
    PrefixedIsDirectoryThenFile(base, camera);
    FilePartHasNoSlash(base);
    NumberInFront(Directory(base), Sanitized(camera) + "_" + FilePart(base), frame);
  }

  lemma NumberInFront(h: string, file: string, frame: int)
    requires '#' in h && h[|h| - 1] == '/' && '/' !in file
    ensures Basename(FilePath(h + file, frame)) == file
  {
    var cuts := HashInFront(h, file);
    var z := ZFill(Str(frame), cuts.1);
    BasenameOfPrefixed(cuts.0 + z + cuts.2, file);
    assert cuts.0 + z + (cuts.2 + file) == (cuts.0 + z + cuts.2) + file;
  }

  /** A directory that contains # takes the number, and keeps its last slash. */
  lemma HashInFront(h: string, file: string) returns (cuts: (string, nat, string))
    requires '#' in h && h[|h| - 1] == '/'
    ensures Cuts(h + file) == (cuts.0, cuts.1, cuts.2 + file)
    ensures cuts.2 != [] && cuts.2[|cuts.2| - 1] == '/'
  {
    var p := h + file;
    var i := HashStart(p);
    HashStartInFront(h, file);
    var j := HashEnd(h, i);
    HashEndInFront(h, file, i);
    cuts := (h[..i], j - i, h[j..]);
    assert p[..i] == h[..i] && p[j..] == h[j..] + file;
  }

  lemma {:induction false} HashStartInFront(h: string, t: string)
    requires '#' in h
    ensures HashStart(h + t) == HashStart(h) < |h|
  {
    if h[0] != '#' {
      assert (h + t)[1..] == h[1..] + t;
      HashStartInFront(h[1..], t);
    }
  }

  lemma {:induction false} HashEndInFront(h: string, t: string, i: nat)
    requires i < |h| && h[|h| - 1] == '/'
    ensures HashEnd(h + t, i) == HashEnd(h, i) < |h|
    decreases |h| - i
  {
    if h[i] == '#' { HashEndInFront(h, t, i + 1); }
  }

  /** Exactly when names of different frames never collide: the directory part of the output path has no #. */
  lemma NamesNeverCollideIff(base: string)
    ensures (forall c, d, f, g :: f != g ==> FrameName(base, c, f) != FrameName(base, d, g))
      <==> '#' !in Split(base).0
  {
    if '#' in Split(base).0 {
      HashInDirectoryHidesNumber(base, "", 1, 2);
      assert FrameName(base, "", 1) == FrameName(base, "", 2);
    } else {
      forall c, d, f, g | f != g ensures FrameName(base, c, f) != FrameName(base, d, g) {
        FramesHaveOwnNames(base, c, d, f, g);
      }
    }
  }

  // ---------------------------------------------------------------------------
  // A name worked out
  // ---------------------------------------------------------------------------

  lemma SampleCuts()
    ensures Cuts("f_##x") == ("f_", 2, "x")
  {
    var t := "f_##x";
    assert t[1..] == "_##x" && "_##x"[1..] == "##x";
    assert HashStart("##x") == 0 && HashStart("_##x") == 1 && HashStart(t) == 2;
    assert HashEnd(t, 4) == 4 && HashEnd(t, 3) == 4 && HashEnd(t, 2) == 4;
    CutsAt(t, 2, 4);
    hide Cuts, HashStart, HashEnd;
    assert t[..2] == "f_" && t[4..] == "x";
  }

  lemma SamplePattern()
    ensures FilePart("/out/f_##x") == "f_##x" && Split("/out/f_##x").0 == "/out"
  {
    var p := "/out/f_##x";
    assert p == "/out/" + "f_##x";
    BasenameOfPrefixed("/out/", "f_##x");
    assert p[..5] == "/out/" && p[5..] == "f_##x";
    assert DropSlashes("/out/") == "/out" by { assert "/out/"[..4] == "/out"; }
    assert !AllSlashes("/out/") by { assert "/out/"[1] in "/out/" && "/out/"[1] != '/'; }
  }

  lemma SampleCamera()
    ensures Sanitized(" Cam 1") == "Cam_1"
  {
    var s := " Cam 1";
    assert s[1..] == "Cam 1";
    assert LStrip("Cam 1") == "Cam 1";
    assert Strip(s) == "Cam 1";
    assert Replaced("") == "";
    assert "1"[1..] == "" && Replaced("1") == "1";
    assert " 1"[1..] == "1" && Replaced(" 1") == "_1";
    assert "m 1"[1..] == " 1" && Replaced("m 1") == "m_1";
    assert "am 1"[1..] == "m 1" && Replaced("am 1") == "am_1";
    assert "Cam 1"[1..] == "am 1" && Replaced("Cam 1") == "Cam_1";
  }

  lemma SampleNumbers()
    ensures ZFill(Str(7), 2) == "07" && ZFill(Str(123), 2) == "123"
  {
    assert Zeros(0) == [] && Zeros(1) == "0";
    assert Decimal(12) == "12" && Decimal(123) == "123";
  }

  lemma SampleName(frame: int, z: string)
    requires ZFill(Str(frame), 2) == z
    ensures FrameName("/out/f_##x", " Cam 1", frame) == "Cam_1_f_" + z + "x"
  {
    hide FrameName, Sanitized, Cuts, FilePart, Split, ZFill, Str;
    SampleCuts();
    SamplePattern();
    SampleCamera();
    assert '#' !in "/out";
    NameShape("/out/f_##x", " Cam 1", frame);
    assert "Cam_1" + "_" + "f_" == "Cam_1_f_";
  }

  /** Frame 7 and frame 123 of a camera. */
  lemma SampleNames()
    ensures FrameName("/out/f_##x", " Cam 1", 7) == "Cam_1_f_" + "07x"
    ensures FrameName("/out/f_##x", " Cam 1", 123) == "Cam_1_f_" + "123x"
  {
    hide FrameName, ZFill, Str;
    SampleNumbers();
    SampleName(7, "07");
    SampleName(123, "123");
    assert "Cam_1_f_" + "07" + "x" == "Cam_1_f_" + ("07" + "x");
    assert "Cam_1_f_" + "123" + "x" == "Cam_1_f_" + ("123" + "x");
  }

  // ---------------------------------------------------------------------------
  // The manifest
  // ---------------------------------------------------------------------------

  /** How a frame and its camera are named. */
  type Naming = (int, Object) -> string

  /** The file name of one assignment, extension included. */
  function FullName(a: (int, Object), naming: Naming, ext: string): string {
    naming(a.0, a.1) + ext
  }

  /** The file names of the first n assignments. */
  function Collected(assignments: Assignments, n: nat, naming: Naming, ext: string): set<string>
    requires n <= |assignments|
  {
    if n == 0 then {} else Collected(assignments, n - 1, naming, ext) + {FullName(assignments[n - 1], naming, ext)}
  }

  method CollectNames(assignments: Assignments, naming: Naming, ext: string) returns (names: set<string>)
    ensures names == Collected(assignments, |assignments|, naming, ext)
  {
    names := {};
    for i := 0 to |assignments|
      invariant names == Collected(assignments, i, naming, ext)
    {
      var (frame, camera) := assignments[i];
      names := names + {naming(frame, camera) + ext};
    }
  }

  function NamingFor(base: string): Naming {
    (frame, camera: Object) => FrameName(base, camera.name, frame)
  }

  /** _primary_basenames. */
  method PrimaryBasenames(assignments: Assignments, base: string, ext: string) returns (names: set<string>)
    ensures names == Collected(assignments, |assignments|, NamingFor(base), ext)
  {
    names := CollectNames(assignments, NamingFor(base), ext);
  }

  lemma SuffixCancels(a: string, b: string, ext: string)
    ensures a + ext == b + ext ==> a == b
  {
    assert a == (a + ext)[..|a + ext| - |ext|] && b == (b + ext)[..|b + ext| - |ext|];
  }

  ghost predicate Distinct(assignments: Assignments, naming: Naming, ext: string) {
    forall i, j :: 0 <= i < j < |assignments| ==>
      FullName(assignments[i], naming, ext) != FullName(assignments[j], naming, ext)
  }

  lemma {:induction false} NotYet(assignments: Assignments, n: nat, k: nat, naming: Naming, ext: string)
    requires n <= k < |assignments| && Distinct(assignments, naming, ext)
    ensures FullName(assignments[k], naming, ext) !in Collected(assignments, n, naming, ext)
  {
    if n > 0 {
      NotYet(assignments, n - 1, k, naming, ext);
      assert FullName(assignments[n - 1], naming, ext) != FullName(assignments[k], naming, ext);
    }
  }

  lemma {:induction false} DistinctNames(assignments: Assignments, n: nat, naming: Naming, ext: string)
    requires n <= |assignments| && Distinct(assignments, naming, ext)
    ensures |Collected(assignments, n, naming, ext)| == n
  {
    if n > 0 {
      DistinctNames(assignments, n - 1, naming, ext);
      NotYet(assignments, n - 1, n - 1, naming, ext);
    }
  }

  /** The manifest has exactly one entry per assignment when the frames are distinct and the directory has no #. */
  lemma OneNamePerAssignment(assignments: Assignments, base: string, ext: string)
    requires '#' !in Split(base).0
    requires forall i, j :: 0 <= i < j < |assignments| ==> assignments[i].0 != assignments[j].0
    ensures |Collected(assignments, |assignments|, NamingFor(base), ext)| == |assignments|
  {
    var naming := NamingFor(base);
    forall i, j | 0 <= i < j < |assignments|
      ensures FullName(assignments[i], naming, ext) != FullName(assignments[j], naming, ext)
    {
      FramesHaveOwnNames(base, assignments[i].1.name, assignments[j].1.name, assignments[i].0, assignments[j].0);
      SuffixCancels(naming(assignments[i].0, assignments[i].1), naming(assignments[j].0, assignments[j].1), ext);
    }
    DistinctNames(assignments, |assignments|, naming, ext);
  }

  /** Every successful run of the driver records one file name for each frame it goes through. */
  lemma OneNamePerFrame(scene: Scene, o: Overrides, start: int, end: int, step: Step, base: string, ext: string)
    requires Built(scene, o, start, end, step).Ok? && '#' !in Split(base).0
    ensures var a := Built(scene, o, start, end, step).value;
      |Collected(a, |a|, NamingFor(base), ext)| == Count(start, end, step)
  {
    var a := Built(scene, o, start, end, step).value;
    AssignedLength(scene, ResolverFor(scene, o).value, Frames(start, end, step));
    FramesBounded(start, end, step);
    TotalIsAssignments(scene, o, start, end, step);
    OneNamePerAssignment(a, base, ext);
  }
}
