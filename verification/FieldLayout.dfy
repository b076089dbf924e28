/** Field declarators of the struct table, their sizes, and where fields lie inside a struct. */
module FieldLayout {
  import opened Bytes
  import opened Decimals
  import opened RenderJobs
  import opened SdnaTable
  import BlendFile

  type Field = (nat, nat)

  // ---------------------------------------------------------------------------
  // What the parser computes
  // ---------------------------------------------------------------------------

  /** How many characters stand before the first c; all of them when there is none. */
  function Before(s: string, c: char): (n: nat)
    ensures n <= |s| && (n < |s| ==> s[n] == c)
  {
    if s == [] || s[0] == c then 0 else 1 + Before(s[1..], c)
  }

  /** str.lstrip of one character. */
  function Stripped(s: string, c: char): string {
    if s != [] && s[0] == c then Stripped(s[1..], c) else s
  }

  /** total, multiplied by every bracketed dimension of rest. */
  function Scaled(total: int, rest: string): Result<int>
    decreases |rest|
  {
    var start := Before(rest, '[');
    if start == |rest| then Ok(total)
    else
      var close := Before(rest[start..], ']');
      if start + close == |rest| then Err(ValueError)
      else
        var dim :- BlendFile.PyInt(rest[start + 1..start + close]);
        Scaled(total * dim, rest[start + close + 1..])
  }

  predicate HasParenStar(name: string) {
    exists i :: 0 <= i < |name| - 1 && name[i] == '(' && name[i + 1] == '*'
  }

  /** The size of a field, from its type's length and the text of its name. */
  function FieldSize(s: Sdna, f: Field, pointerSize: nat): Result<int> {
    if f.1 >= |s.names| || f.0 >= |s.lens| then Err(IndexError)
    else
      var name := s.names[f.1];
      var total :- Scaled(if name != [] && name[0] == '*' then pointerSize else s.lens[f.0], name);
      Ok(if HasParenStar(name) then pointerSize else total)
  }

  /** A field name without pointer stars, dimensions or function-pointer syntax. */
  function Clean(name: string): string {
    var bare := Stripped(name, '*');
    var front := bare[..Before(bare, '[')];
    if front != [] && front[0] == '(' && Before(front, ')') < |front|
    then Stripped(Stripped(front[..Before(front, ')')], '('), '*')
    else front
  }

  /** The offset and type of the first of `fields` with a name, when the first of them lies at offset. */
  function Locate(s: Sdna, fields: seq<Field>, offset: int, name: string, pointerSize: nat): Result<Option<(int, nat)>> {
    if fields == [] then Ok(None)
    else if fields[0].1 >= |s.names| then Err(IndexError)
    else if Clean(s.names[fields[0].1]) == name then Ok(Some((offset, fields[0].0)))
    else
      var size :- FieldSize(s, fields[0], pointerSize);
      Locate(s, fields[1..], offset + size, name, pointerSize)
  }

  /** _field_byte_size. */
  method FieldByteSize(s: Sdna, f: Field, pointerSize: nat) returns (r: Result<int>)
    ensures r == FieldSize(s, f, pointerSize)
  {
    hide BlendFile.PyInt, HasParenStar, Before;
    if f.1 >= |s.names| || f.0 >= |s.lens| { return Err(IndexError); }
    var name := s.names[f.1];
    var total: int := s.lens[f.0];
    if name != [] && name[0] == '*' { total := pointerSize; }
    ghost var base := total;
    var rest := name;
    while Before(rest, '[') < |rest|
      invariant Scaled(total, rest) == Scaled(base, name)
      decreases |rest|
    {
      var start := Before(rest, '[');
      var close := Before(rest[start..], ']');
      if start + close == |rest| { return Err(ValueError); }
      var dim := BlendFile.PyInt(rest[start + 1..start + close]);
      if dim.Err? { return Err(dim.error); }
      total := total * dim.value;
      rest := rest[start + close + 1..];
    }
    return Ok(if HasParenStar(name) then pointerSize else total);
  }

  /** _find_field_offset. */
  method FindFieldOffset(s: Sdna, index: nat, name: string, pointerSize: nat) returns (r: Result<Option<(int, nat)>>)
    requires index < |s.structs|
    ensures r == Locate(s, s.structs[index].fields, 0, name, pointerSize)
  {
    hide Clean, FieldSize;
    var fields := s.structs[index].fields;
    var offset := 0;
    for i := 0 to |fields|
      invariant Locate(s, fields[i..], offset, name, pointerSize) == Locate(s, fields, 0, name, pointerSize)
    {
      assert fields[i..][0] == fields[i] && fields[i..][1..] == fields[i + 1..];
      if fields[i].1 >= |s.names| { return Err(IndexError); }
      if Clean(s.names[fields[i].1]) == name { return Ok(Some((offset, fields[i].0))); }
      var size := FieldByteSize(s, fields[i], pointerSize);
      if size.Err? { return Err(size.error); }
      offset := offset + size.value;
    }
    return Ok(None);
  }

  // ---------------------------------------------------------------------------
  // What a declarator means
  // ---------------------------------------------------------------------------

  /** How the struct table declares a field: a value, pointer or array of either, or a pointer to a function. */
  datatype Declarator = Plain(stars: nat, ident: string, dims: seq<nat>) | FunctionPointer(ident: string)

  predicate IsIdent(s: string) { s != [] && forall c :: c in s ==> c !in "*[]()" }

  function Stars(n: nat): string {
    if n == 0 then [] else ['*'] + Stars(n - 1)
  }

  function PrintedDims(dims: seq<nat>): string {
    if dims == [] then [] else ['['] + Decimal(dims[0]) + [']'] + PrintedDims(dims[1..])
  }

  function PrintedDeclarator(d: Declarator): string {
    match d
    case Plain(stars, ident, dims) => Stars(stars) + (ident + PrintedDims(dims))
    case FunctionPointer(ident) => "(*" + ident + ")()"
  }

  function Product(dims: seq<nat>): nat {
    if dims == [] then 1 else dims[0] * Product(dims[1..])
  }

  /** The bytes a field takes: a pointer's or its type's, times the number of elements. */
  function SizeOf(d: Declarator, length: nat, pointerSize: nat): nat {
    match d
    case Plain(stars, _, dims) => (if stars > 0 then pointerSize else length) * Product(dims)
    case FunctionPointer(_) => pointerSize
  }

  // ---------------------------------------------------------------------------
  // Sizes and names of printed declarators
  // ---------------------------------------------------------------------------

  lemma {:induction false} BeforeSkips(a: string, c: char, b: string)
    requires c !in a
    ensures Before(a + b, c) == |a| + Before(b, c)
  {
    if a == [] {
      assert a + b == b;
    } else {
      assert (a + b)[1..] == a[1..] + b;
      BeforeSkips(a[1..], c, b);
    }
  }

  lemma NoneBefore(a: string, c: char)
    requires c !in a
    ensures Before(a, c) == |a|
  {
    BeforeSkips(a, c, []);
    assert a + [] == a;
  }

  lemma {:induction false} DigitsParse(s: string)
    requires s != [] && forall c :: c in s ==> '0' <= c <= '9'
    ensures BlendFile.IsNumeral(s) && Val(s) == BlendFile.DigitsValue(s) && Val(s) >= 0
  {
    var rest := s[..|s| - 1];
    assert forall c :: c in rest ==> c in s;
    if rest == [] {
      assert Val(rest) == 0 && BlendFile.DigitsValue(rest) == 0;
      assert s[0] in s;
    } else {
      assert s[|s| - 1] in s;
      DigitsParse(rest);
    }
  }

  lemma DecimalParses(n: nat)
    ensures BlendFile.PyInt(Decimal(n)) == Ok(n)
  {
    DecimalReadsBack(n);
    var s := Decimal(n);
    DigitsParse(s);
    assert s[0] in s && s[|s| - 1] in s;
  }

  lemma MulAssoc(a: int, b: int, c: int)
    ensures a * b * c == a * (b * c)
  {
  }

  lemma DimensionSlices(s: string, prefix: string, digits: string, rest: string)
    requires s == prefix + (['['] + digits + [']'] + rest)
    ensures |s| == |prefix| + |digits| + 2 + |rest|
    ensures s[|prefix|..] == (['['] + digits) + ([']'] + rest)
    ensures s[|prefix| + 1..|prefix| + 1 + |digits|] == digits
    ensures s[|prefix| + 1 + |digits| + 1..] == rest
  {
  }

  lemma DimensionBounds(s: string, prefix: string, digits: string, rest: string)
    requires s == prefix + (['['] + digits + [']'] + rest) && '[' !in prefix && ']' !in digits
    ensures Before(s, '[') == |prefix| < |s| && Before(s[|prefix|..], ']') == 1 + |digits|
  {
    DimensionSlices(s, prefix, digits, rest);
    BeforeSkips(prefix, '[', ['['] + digits + [']'] + rest);
    BeforeSkips(['['] + digits, ']', [']'] + rest);
  }

  lemma ScaledOnce(total: int, s: string, start: nat, close: nat, digits: string, d: int, rest: string)
    requires start == Before(s, '[') < |s| && close == Before(s[start..], ']') && start + close < |s|
    requires s[start + 1..start + close] == digits && s[start + close + 1..] == rest && BlendFile.PyInt(digits) == Ok(d)
    ensures Scaled(total, s) == Scaled(total * d, rest)
  {
    hide BlendFile.PyInt, Before;
  }

  /** One dimension, taken off the front. */
  lemma ScaledStep(total: int, s: string, prefix: string, digits: string, d: int, rest: string)
    requires s == prefix + (['['] + digits + [']'] + rest)
    requires '[' !in prefix && ']' !in digits && BlendFile.PyInt(digits) == Ok(d)
    ensures Scaled(total, s) == Scaled(total * d, rest)
  {
    hide BlendFile.PyInt, Before, Scaled;
    DimensionSlices(s, prefix, digits, rest);
    DimensionBounds(s, prefix, digits, rest);
    ScaledOnce(total, s, |prefix|, 1 + |digits|, digits, d, rest);
  }

  lemma {:induction false} ScaledDims(total: int, prefix: string, dims: seq<nat>)
    requires '[' !in prefix
    ensures Scaled(total, prefix + PrintedDims(dims)) == Ok(total * Product(dims))
    decreases |dims|
  {
    if dims == [] {
      assert prefix + [] == prefix;
      NoneBefore(prefix, '[');
    } else {
      DecimalParses(dims[0]);
      DecimalReadsBack(dims[0]);
      ScaledStep(total, prefix + PrintedDims(dims), prefix, Decimal(dims[0]), dims[0], PrintedDims(dims[1..]));
      ScaledDims(total * dims[0], [], dims[1..]);
      assert [] + PrintedDims(dims[1..]) == PrintedDims(dims[1..]);
      MulAssoc(total, dims[0], Product(dims[1..]));
    }
  }

  lemma {:induction false} StarsAreStars(n: nat)
    ensures |Stars(n)| == n && forall c :: c in Stars(n) ==> c == '*'
  {
    if n > 0 { StarsAreStars(n - 1); }
  }

  lemma {:induction false} DimsHaveNoParen(dims: seq<nat>)
    ensures '(' !in PrintedDims(dims) && (dims != [] ==> PrintedDims(dims)[0] == '[')
  {
    if dims != [] {
      DecimalReadsBack(dims[0]);
      DimsHaveNoParen(dims[1..]);
    }
  }

  /** Size of every printed declarator: base or pointer, times all dimensions; function pointers are one pointer. */
  lemma DeclaratorSize(s: Sdna, f: Field, d: Declarator, pointerSize: nat)
    requires f.0 < |s.lens| && f.1 < |s.names| && IsIdent(d.ident) && s.names[f.1] == PrintedDeclarator(d)
    ensures FieldSize(s, f, pointerSize) == Ok(SizeOf(d, s.lens[f.0], pointerSize))
  {
    var name := s.names[f.1];
    match d
    case Plain(stars, ident, dims) =>
      StarsAreStars(stars);
      DimsHaveNoParen(dims);
      assert name == (Stars(stars) + ident) + PrintedDims(dims);
      assert '[' !in Stars(stars) + ident;
      assert '(' !in name;
      assert name[0] == (Stars(stars) + ident)[0];
      assert ident[0] in ident;
      ScaledDims(if stars > 0 then pointerSize else s.lens[f.0], Stars(stars) + ident, dims);
    case FunctionPointer(ident) =>
      assert name[0] == '(' && name[1] == '*';
      assert '[' !in name;
      NoneBefore(name, '[');
  }

  lemma {:induction false} StripsStars(n: nat, s: string)
    requires s != [] && s[0] != '*'
    ensures Stripped(Stars(n) + s, '*') == s
  {
    if n == 0 {
      assert Stars(0) + s == s;
    } else {
      assert (Stars(n) + s)[1..] == Stars(n - 1) + s;
      StripsStars(n - 1, s);
    }
  }

  lemma StripsFunctionPointer(ident: string)
    requires ident != [] && ident[0] != '*'
    ensures Stripped(Stripped("(*" + ident, '('), '*') == ident
  {
    assert ("(*" + ident)[1..] == "*" + ident && ("*" + ident)[1..] == ident;
    assert Stripped("*" + ident, '(') == "*" + ident;
    assert Stripped(ident, '*') == ident;
  }

  /** Cleaning a printed declarator gives its identifier. */
  lemma DeclaratorName(d: Declarator)
    requires IsIdent(d.ident)
    ensures Clean(PrintedDeclarator(d)) == d.ident
  {
    var ident := d.ident;
    assert ident[0] in ident;
    match d
    case Plain(stars, _, dims) =>
      var bare := ident + PrintedDims(dims);
      StripsStars(stars, bare);
      DimsHaveNoParen(dims);
      BeforeSkips(ident, '[', PrintedDims(dims));
      assert bare[..|ident|] == ident;
    case FunctionPointer(_) =>
      var name := PrintedDeclarator(d);
      assert name == ("(*" + ident) + ")()";
      assert '[' !in name && ')' !in "(*" + ident;
      NoneBefore(name, '[');
      BeforeSkips("(*" + ident, ')', ")()");
      assert name[..|name|] == name && name[..2 + |ident|] == "(*" + ident;
      StripsFunctionPointer(ident);
  }

  // ---------------------------------------------------------------------------
  // Layout
  // ---------------------------------------------------------------------------

  /** The declarators behind a table's field names. */
  ghost predicate Declares(s: Sdna, decls: seq<Declarator>) {
    && |decls| == |s.names| && |s.lens| == |s.types|
    && forall i :: 0 <= i < |decls| ==> IsIdent(decls[i].ident) && s.names[i] == PrintedDeclarator(decls[i])
  }

  predicate FieldsInRange(s: Sdna, fields: seq<Field>) {
    forall i :: 0 <= i < |fields| ==> fields[i].0 < |s.lens| && fields[i].1 < |s.names|
  }

  function Sizes(s: Sdna, decls: seq<Declarator>, fields: seq<Field>, pointerSize: nat): (sizes: seq<nat>)
    requires |decls| == |s.names| && FieldsInRange(s, fields)
    ensures |sizes| == |fields|
  {
    seq(|fields|, i requires 0 <= i < |fields| => SizeOf(decls[fields[i].1], s.lens[fields[i].0], pointerSize))
  }

  function Sum(sizes: seq<nat>): nat {
    if sizes == [] then 0 else sizes[0] + Sum(sizes[1..])
  }

  /** Where field k starts. */
  function OffsetOf(sizes: seq<nat>, k: nat): nat
    requires k <= |sizes|
  {
    if k == 0 then 0 else sizes[0] + OffsetOf(sizes[1..], k - 1)
  }

  /** The first field with an identifier; the number of fields when there is none. */
  function FirstNamed(decls: seq<Declarator>, fields: seq<Field>, name: string): (k: nat)
    requires forall i :: 0 <= i < |fields| ==> fields[i].1 < |decls|
    ensures k <= |fields|
    ensures forall i :: 0 <= i < k ==> decls[fields[i].1].ident != name
    ensures k < |fields| ==> decls[fields[k].1].ident == name
  {
    if fields == [] || decls[fields[0].1].ident == name then 0 else 1 + FirstNamed(decls, fields[1..], name)
  }

  /** The parser finds the first field with an identifier, and where the sizes before it add up to. */
  lemma {:induction false} FieldsAreLaidOut(s: Sdna, decls: seq<Declarator>, fields: seq<Field>, offset: int, name: string,
                                            pointerSize: nat)
    requires Declares(s, decls) && FieldsInRange(s, fields)
    ensures var k := FirstNamed(decls, fields, name);
      Locate(s, fields, offset, name, pointerSize)
      == Ok(if k == |fields| then None
            else Some((offset + OffsetOf(Sizes(s, decls, fields, pointerSize), k), fields[k].0)))
    decreases |fields|
  {
    hide Clean, FieldSize, PrintedDeclarator, SizeOf;
    if fields != [] {
      var d := decls[fields[0].1];
      DeclaratorName(d);
      if d.ident != name {
        DeclaratorSize(s, fields[0], d, pointerSize);
        var sizes := Sizes(s, decls, fields, pointerSize);
        FieldsAreLaidOut(s, decls, fields[1..], offset + sizes[0], name, pointerSize);
        assert sizes[1..] == Sizes(s, decls, fields[1..], pointerSize);
      }
    }
  }

  /** Fields fill consecutive disjoint intervals: each ends where the next begins, and the last ends the struct. */
  lemma {:induction false} FieldsAreDisjoint(sizes: seq<nat>, i: nat, j: nat)
    requires i < j <= |sizes|
    ensures OffsetOf(sizes, i) + sizes[i] <= OffsetOf(sizes, j)
    ensures j == i + 1 ==> OffsetOf(sizes, i) + sizes[i] == OffsetOf(sizes, j)
    ensures j == |sizes| ==> OffsetOf(sizes, j) == Sum(sizes)
  {
    if i > 0 {
      FieldsAreDisjoint(sizes[1..], i - 1, j - 1);
    } else if j > 1 {
      FieldsAreDisjoint(sizes[1..], 0, j - 1);
    } else {
      assert OffsetOf(sizes[1..], 0) == 0;
      if |sizes| == 1 { assert Sum(sizes[1..]) == 0; }
    }
  }
}
