/** The ways a document may be written: blanks around any token, any escape of a character, members in any
    order. The reader accepts exactly these, and reads each as the one value it spells. */
module JsonSpelling {
  import opened Decimal
  import opened Json
  import opened Ordering

  // --------------------------------------------------------------------------- spellings

  datatype Character = Plain(plain: char) | Short(letter: char) | Hex(h0: char, h1: char, h2: char, h3: char)

  /** A value as it is written. An empty array or object has only blanks inside. */
  datatype Spelling =
    | Nothing
    | Truth(truth: bool)
    | Number(negative: bool, digits: string)
    | Quotation(chars: seq<Character>)
    | Row(inner: string, items: seq<Item>)
    | Record(inner: string, pairs: seq<Pair>)

  /** A value with the blanks around it. */
  datatype Item = Item(before: string, value: Spelling, after: string)

  /** A key with the blanks around it, and the value after the colon. */
  datatype Pair = Pair(before: string, key: seq<Character>, gap: string, item: Item)

  function CharText(x: Character): string {
    match x
    case Plain(c) => [c]
    case Short(c) => ['\\', c]
    case Hex(a, b, c, d) => ['\\', 'u', a, b, c, d]
  }

  /** The characters and the closing quote. */
  function CharsText(cs: seq<Character>): string {
    if cs == [] then "\"" else CharText(cs[0]) + CharsText(cs[1..])
  }

  function NumberText(negative: bool, digits: string): string {
    if negative then "-" + digits else digits
  }

  function Written(x: Spelling): string
    decreases x
  {
    match x
    case Nothing => "null"
    case Truth(b) => if b then "true" else "false"
    case Number(negative, digits) => NumberText(negative, digits)
    case Quotation(cs) => "\"" + CharsText(cs)
    case Row(inner, items) => "[" + (if items == [] then inner + "]" else ItemsText(items))
    case Record(inner, pairs) => "{" + (if pairs == [] then inner + "}" else PairsText(pairs))
  }

  function ItemText(i: Item): string
    decreases i
  {
    i.before + Written(i.value) + i.after
  }

  /** The items, the commas between them and the closing bracket. */
  function ItemsText(items: seq<Item>): string
    requires items != []
    decreases items
  {
    ItemText(items[0]) + (if |items| == 1 then "]" else "," + ItemsText(items[1..]))
  }

  function PairText(m: Pair): string
    decreases m
  {
    m.before + ("\"" + CharsText(m.key)) + m.gap + ":" + ItemText(m.item)
  }

  function PairsText(pairs: seq<Pair>): string
    requires pairs != []
    decreases pairs
  {
    PairText(pairs[0]) + (if |pairs| == 1 then "}" else "," + PairsText(pairs[1..]))
  }

  // ------------------------------------------------------------------ what a spelling means

  predicate Blanks(s: string) {
    forall i :: 0 <= i < |s| ==> Blank(s[i])
  }

  predicate HexMeans(a: char, b: char, c: char, d: char, n: nat) {
    && HexDigit(a).Some? && HexDigit(b).Some? && HexDigit(c).Some? && HexDigit(d).Some?
    && n == 16 * (16 * (16 * HexDigit(a).value + HexDigit(b).value) + HexDigit(c).value) + HexDigit(d).value
  }

  /** An ASCII character stands for itself, unless it is a control character, a quote or a backslash; any
      may be escaped, by letter where there is one or by code. */
  predicate CharMeans(x: Character, c: char) {
    && c as int < 0x80
    && match x
       case Plain(p) => p == c && c as int >= 0x20 && c != '\"' && c != '\\'
       case Short(l) => SimpleEscape(l) == Some(c)
       case Hex(h0, h1, h2, h3) => HexMeans(h0, h1, h2, h3, c as int)
  }

  ghost predicate CharsMean(cs: seq<Character>, s: string) {
    |cs| == |s| && forall i :: 0 <= i < |cs| ==> CharMeans(cs[i], s[i])
  }

  /** Digits without a leading zero; zero may carry a sign. */
  ghost predicate NumberMeans(negative: bool, digits: string, n: int) {
    && digits != "" && (forall i :: 0 <= i < |digits| ==> Digit(digits[i])) && (digits[0] == '0' ==> |digits| == 1)
    && ValueOf(digits) <= MAX_SAFE && (if negative then n == -(ValueOf(digits) as int) else n == ValueOf(digits))
  }

  ghost predicate DistinctKeys(f: Fields) {
    forall i, j :: 0 <= i < j < |f| ==> f[i].key != f[j].key
  }

  ghost predicate SameFields(f: Fields, g: Fields) {
    forall x :: x in f <==> x in g
  }

  ghost predicate Means(x: Spelling, v: Json)
    decreases x
  {
    match x
    case Nothing => v == Null
    case Truth(b) => v == Boolean(b)
    case Number(negative, digits) => v.Integer? && NumberMeans(negative, digits, v.number)
    case Quotation(cs) => v.Text? && CharsMean(cs, v.text)
    case Row(inner, items) =>
      && v.Array? && Blanks(inner) && |items| == |v.items|
      && forall i :: 0 <= i < |items| ==> ItemMeans(items[i], v.items[i])
    case Record(inner, pairs) =>
      && v.Object? && Blanks(inner) && Sorted(v.fields)
      && exists f: Fields ::
        && |pairs| == |f| && (forall i :: 0 <= i < |pairs| ==> PairMeans(pairs[i], f[i]))
        && DistinctKeys(f) && SameFields(f, v.fields)
  }

  ghost predicate ItemMeans(i: Item, v: Json)
    decreases i
  {
    Blanks(i.before) && Means(i.value, v) && Blanks(i.after)
  }

  ghost predicate PairMeans(m: Pair, f: Field)
    decreases m
  {
    Blanks(m.before) && f.key != "" && CharsMean(m.key, f.key) && Blanks(m.gap) && ItemMeans(m.item, f.value)
  }

  ghost predicate ItemsMean(items: seq<Item>, vs: seq<Json>) {
    |items| == |vs| && forall i :: 0 <= i < |items| ==> ItemMeans(items[i], vs[i])
  }

  ghost predicate PairsMean(pairs: seq<Pair>, f: Fields) {
    |pairs| == |f| && forall i :: 0 <= i < |pairs| ==> PairMeans(pairs[i], f[i])
  }

  /** The text is some spelling of the value. */
  ghost predicate Spells(v: Json, s: string) {
    exists d: Item :: ItemMeans(d, v) && s == ItemText(d)
  }

  // ------------------------------------------------------------------------------- blanks

  /** Blanks in front of a token disappear. */
  lemma {:induction false} BlanksVanish(blanks: string, s: string)
    requires Blanks(blanks)
    ensures Skip(blanks + s) == Skip(s)
    decreases |blanks|
  {
    if blanks == "" {
      assert blanks + s == s;
    } else {
      assert (blanks + s)[1..] == blanks[1..] + s;
      BlanksVanish(blanks[1..], s);
    }
  }

  lemma {:induction false} Skipped(s: string) returns (blanks: string)
    ensures Blanks(blanks) && s == blanks + Skip(s)
    decreases |s|
  {
    if s == "" || !Blank(s[0]) {
      blanks := "";
    } else {
      blanks := Skipped(s[1..]);
      blanks := [s[0]] + blanks;
    }
  }

  // --------------------------------------------------------------------------- characters

  /** Four hexadecimal digits, in either case, read as their value. */
  lemma QuadReads(a: char, b: char, c: char, d: char, n: nat, rest: string)
    requires HexMeans(a, b, c, d, n)
    ensures HexQuad([a, b, c, d] + rest, 4, 0) == Some((n, rest))
  {
    var s := [a, b, c, d] + rest;
    var x := HexDigit(a).value;
    var y := 16 * x + HexDigit(b).value;
    var z := 16 * y + HexDigit(c).value;
    var w := 16 * z + HexDigit(d).value;
    assert s[1..] == [b, c, d] + rest && s[1..][1..] == [c, d] + rest;
    assert s[1..][1..][1..] == [d] + rest && s[1..][1..][1..][1..] == rest;
    assert HexQuad(rest, 0, w) == Some((w, rest));
    assert HexQuad([d] + rest, 1, z) == Some((w, rest));
    assert HexQuad([c, d] + rest, 2, y) == Some((w, rest));
    assert HexQuad([b, c, d] + rest, 3, x) == Some((w, rest));
  }

  lemma QuadSpelled(s: string)
    requires HexQuad(s, 4, 0).Some?
    ensures |s| >= 4 && HexMeans(s[0], s[1], s[2], s[3], HexQuad(s, 4, 0).value.0)
    ensures HexQuad(s, 4, 0).value.1 == s[4..]
  {
    var x := HexDigit(s[0]).value;
    assert HexQuad(s, 4, 0) == HexQuad(s[1..], 3, x);
    var y := 16 * x + HexDigit(s[1]).value;
    assert HexQuad(s[1..], 3, x) == HexQuad(s[2..], 2, y);
    var z := 16 * y + HexDigit(s[2]).value;
    assert HexQuad(s[2..], 2, y) == HexQuad(s[3..], 1, z);
    var w := 16 * z + HexDigit(s[3]).value;
    assert HexQuad(s[3..], 1, z) == HexQuad(s[4..], 0, w);
  }

  lemma HexReads(x: Character, c: char, rest: string)
    requires x.Hex? && CharMeans(x, c)
    ensures OneChar(CharText(x) + rest) == Some((c, rest))
  {
    hide HexMeans, HexQuad;
    var s := CharText(x) + rest;
    assert s[2..] == [x.h0, x.h1, x.h2, x.h3] + rest;
    QuadReads(x.h0, x.h1, x.h2, x.h3, c as int, rest);
    assert (c as int) as char == c;
  }

  /** Any spelling of a character reads as that character. */
  lemma CharReads(x: Character, c: char, rest: string)
    requires CharMeans(x, c)
    ensures OneChar(CharText(x) + rest) == Some((c, rest)) && CharText(x)[0] != '\"'
  {
    hide HexMeans, HexQuad;
    var s := CharText(x) + rest;
    match x
    case Plain(p) => assert s[1..] == rest;
    case Short(l) => assert s[2..] == rest;
    case Hex(_, _, _, _) => HexReads(x, c, rest);
  }

  lemma CharSpelled(s: string) returns (x: Character)
    requires OneChar(s).Some?
    ensures CharMeans(x, OneChar(s).value.0) && s == CharText(x) + OneChar(s).value.1
  {
    hide HexMeans, HexQuad;
    if s[0] != '\\' {
      x := Plain(s[0]);
    } else if s[1] == 'u' {
      QuadSpelled(s[2..]);
      x := Hex(s[2], s[3], s[4], s[5]);
      assert s[2..][4..] == s[6..];
    } else {
      x := Short(s[1]);
    }
  }

  lemma {:induction false} CharsRead(cs: seq<Character>, t: string, rest: string)
    requires CharsMean(cs, t)
    ensures Chars(CharsText(cs) + rest) == Some((t, rest))
    decreases |cs|
  {
    hide OneChar, CharText, CharMeans;
    var s := CharsText(cs) + rest;
    if cs == [] {
      assert s[1..] == rest;
    } else {
      var more := CharsText(cs[1..]) + rest;
      assert s == CharText(cs[0]) + more;
      CharReads(cs[0], t[0], more);
      CharsRead(cs[1..], t[1..], rest);
      assert [t[0]] + t[1..] == t;
    }
  }

  lemma {:induction false} CharsSpelled(s: string) returns (cs: seq<Character>)
    requires Chars(s).Some?
    ensures CharsMean(cs, Chars(s).value.0) && s == CharsText(cs) + Chars(s).value.1
    decreases |s|
  {
    hide OneChar, CharText, CharMeans;
    if s[0] == '\"' {
      cs := [];
    } else {
      var x := CharSpelled(s);
      cs := CharsSpelled(OneChar(s).value.1);
      assert ([x] + cs)[1..] == cs;
      cs := [x] + cs;
    }
  }

  lemma QuotationReads(cs: seq<Character>, t: string, rest: string)
    requires CharsMean(cs, t)
    ensures StringOf("\"" + CharsText(cs) + rest) == Some((t, rest))
  {
    hide Chars, CharsText;
    CharsRead(cs, t, rest);
    assert ("\"" + CharsText(cs) + rest)[1..] == CharsText(cs) + rest;
  }

  lemma QuotationSpelled(s: string) returns (cs: seq<Character>)
    requires StringOf(s).Some?
    ensures CharsMean(cs, StringOf(s).value.0) && s == "\"" + CharsText(cs) + StringOf(s).value.1
  {
    hide Chars, CharsText;
    cs := CharsSpelled(s[1..]);
    assert s == "\"" + s[1..];
  }

  // ------------------------------------------------------------------------------ numbers

  /** What may follow a number. */
  predicate Ends(rest: string) {
    rest == "" || (!Digit(rest[0]) && !Fractional(rest[0]))
  }

  lemma {:induction false} DigitRunReads(d: string, rest: string)
    requires (forall i :: 0 <= i < |d| ==> Digit(d[i])) && Ends(rest)
    ensures DigitRun(d + rest) == |d|
    decreases |d|
  {
    if d == "" {
      assert d + rest == rest;
    } else {
      assert (d + rest)[1..] == d[1..] + rest;
      DigitRunReads(d[1..], rest);
    }
  }

  lemma MagnitudeReads(d: string, n: nat, rest: string)
    requires NumberMeans(false, d, n) && Ends(rest)
    ensures Magnitude(d + rest) == Some((n, rest))
  {
    var s := d + rest;
    DigitRunReads(d, rest);
    assert s[..|d|] == d && s[|d|..] == rest && s[0] == d[0];
    if d[0] == '0' {
      assert d[..|d| - 1] == "" && ValueOf(d) == 0;
    }
  }

  lemma MagnitudeSpelled(s: string) returns (d: string)
    requires Magnitude(s).Some? && Magnitude(s).value.0 <= MAX_SAFE
    ensures NumberMeans(false, d, Magnitude(s).value.0) && s == d + Magnitude(s).value.1
  {
    hide DigitRun;
    if s[0] == '0' {
      d := "0";
      assert d[..0] == "";
    } else {
      d := s[..DigitRun(s)];
      assert DigitRun(s) > 0;
    }
  }

  lemma NumberReads(negative: bool, d: string, n: int, rest: string)
    requires NumberMeans(negative, d, n) && Ends(rest)
    ensures IntegerOf(NumberText(negative, d) + rest) == Some((n, rest))
  {
    hide Magnitude, ValueOf;
    var s := NumberText(negative, d) + rest;
    MagnitudeReads(d, if negative then -n else n, rest);
    assert negative ==> s[1..] == d + rest;
  }

  lemma NumberSpelled(s: string) returns (negative: bool, d: string)
    requires IntegerOf(s).Some?
    ensures NumberMeans(negative, d, IntegerOf(s).value.0) && s == NumberText(negative, d) + IntegerOf(s).value.1
  {
    hide Magnitude, ValueOf;
    negative := s != "" && s[0] == '-';
    d := MagnitudeSpelled(if negative then s[1..] else s);
    assert negative ==> s == "-" + s[1..];
  }

  // ----------------------------------------------------------- every spelling reads as meant

  /** What follows a value: the end, a comma or a closing bracket. */
  predicate Stops(s: string) {
    s == "" || s[0] == ',' || s[0] == ']' || s[0] == '}'
  }

  lemma SkipStops(blanks: string, s: string)
    requires Blanks(blanks) && Stops(s)
    ensures Skip(blanks + s) == s && Ends(blanks + s)
  {
    BlanksVanish(blanks, s);
  }

  lemma SkipTo(blanks: string, s: string)
    requires Blanks(blanks) && s != "" && !Blank(s[0])
    ensures Skip(blanks + s) == s
  {
    BlanksVanish(blanks, s);
  }

  predicate Opens(s: string) {
    s != "" && !Blank(s[0]) && s[0] != ']' && s[0] != '}'
  }

  lemma WrittenOpens(x: Spelling, v: Json)
    requires Means(x, v)
    ensures Opens(Written(x))
  {
    hide ItemsText, PairsText, CharsText, ItemMeans, PairMeans, ValueOf, Sorted;
  }

  lemma {:induction false} ValueReads(x: Spelling, v: Json, rest: string)
    requires Means(x, v) && Ends(rest)
    ensures Value(Written(x) + rest) == Some((v, rest))
    decreases x, 0
  {
    hide StringOf, IntegerOf, CharsText, Ends, NumberMeans, CharsMean, Elements, Members, ItemsText, PairsText;
    var s := Written(x) + rest;
    match x
    case Nothing => assert s[4..] == rest;
    case Truth(b) => assert s[if b then 4 else 5..] == rest;
    case Number(negative, digits) => NumberOpens(negative, digits, v.number); NumberReads(negative, digits, v.number, rest);
    case Quotation(cs) => QuotationReads(cs, v.text, rest);
    case Row(inner, items) => RowReads(inner, items, v.items, rest);
    case Record(inner, pairs) =>
      var f :| PairsMean(pairs, f) && DistinctKeys(f) && SameFields(f, v.fields);
      RecordReads(inner, pairs, f, v.fields, rest);
  }

  lemma NumberOpens(negative: bool, d: string, n: int)
    requires NumberMeans(negative, d, n)
    ensures NumberText(negative, d) != "" && (NumberText(negative, d)[0] == '-' || Digit(NumberText(negative, d)[0]))
  {
  }

  lemma {:induction false} ItemReads(i: Item, v: Json, tail: string)
    requires ItemMeans(i, v) && Stops(tail)
    ensures Opens(Skip(ItemText(i) + tail))
    ensures Value(Skip(ItemText(i) + tail)) == Some((v, i.after + tail)) && Skip(i.after + tail) == tail
    decreases i, 0
  {
    hide Value, Written, Means, Skip, Blanks, Ends, Stops;
    var t := Written(i.value) + (i.after + tail);
    assert ItemText(i) + tail == i.before + t;
    WrittenOpens(i.value, v);
    SkipTo(i.before, t);
    SkipStops(i.after, tail);
    ValueReads(i.value, v, i.after + tail);
  }

  lemma ElementsStep(s: string, v: Json, rest: string)
    requires Value(s) == Some((v, rest)) && Skip(rest) != ""
    ensures var u := Skip(rest);
            && (u[0] == ']' ==> Elements(s) == Some(([v], u[1..])))
            && (u[0] == ',' && Elements(Skip(u[1..])).Some? ==>
              Elements(s) == Some(([v] + Elements(Skip(u[1..])).value.0, Elements(Skip(u[1..])).value.1)))
  {
    hide Value, Skip;
  }

  lemma {:induction false} ItemsRead(items: seq<Item>, vs: seq<Json>, rest: string)
    requires items != [] && ItemsMean(items, vs)
    ensures Opens(Skip(ItemsText(items) + rest)) && Elements(Skip(ItemsText(items) + rest)) == Some((vs, rest))
    decreases items, 1
  {
    hide Value, ItemText, ItemMeans, Elements, Skip, Opens;
    var more := if |items| == 1 then rest else ItemsText(items[1..]) + rest;
    var tail := (if |items| == 1 then "]" else ",") + more;
    assert ItemsText(items) + rest == ItemText(items[0]) + tail;
    assert tail[1..] == more;
    ItemReads(items[0], vs[0], tail);
    ElementsStep(Skip(ItemText(items[0]) + tail), vs[0], items[0].after + tail);
    if |items| == 1 {
      assert vs == [vs[0]];
    } else {
      ItemsRead(items[1..], vs[1..], rest);
      assert [vs[0]] + vs[1..] == vs;
    }
  }

  lemma {:induction false} RowReads(inner: string, items: seq<Item>, vs: seq<Json>, rest: string)
    requires Blanks(inner) && ItemsMean(items, vs)
    ensures Value(Written(Row(inner, items)) + rest) == Some((Array(vs), rest))
    decreases items, 2
  {
    hide Elements, ItemsText, ItemsMean, Skip, Blanks;
    var s := Written(Row(inner, items)) + rest;
    if items == [] {
      assert vs == [] by { assert |vs| == 0 by { NoItems(vs); } }
      assert s[1..] == inner + ("]" + rest);
      SkipTo(inner, "]" + rest);
      assert ("]" + rest)[1..] == rest;
    } else {
      assert s[1..] == ItemsText(items) + rest;
      ItemsRead(items, vs, rest);
    }
  }

  lemma NoItems(vs: seq<Json>)
    requires ItemsMean([], vs)
    ensures vs == []
  {
  }

  // ------------------------------------------------------------------------------ members

  lemma {:induction false} FiledSorted(f: Fields, m: Field)
    requires Sorted(f) && !HasKey(f, m.key)
    ensures Sorted(Filed(f, m))
    ensures forall x :: x in Filed(f, m) <==> x == m || x in f
    decreases |f|
  {
    hide Less;
    var r := Filed(f, m);
    if f == [] {
    } else if Less(m.key, f[0].key) {
      forall j | 0 <= j < |f|
        ensures Less(m.key, f[j].key)
      {
        if j > 0 { LessTransitive(m.key, f[0].key, f[j].key); }
      }
    } else {
      assert f[0].key != m.key;
      LessTotal(m.key, f[0].key);
      assert forall i :: 0 <= i < |f[1..]| ==> f[1..][i] == f[i + 1];
      FiledSorted(f[1..], m);
      forall j | 0 < j < |r|
        ensures Less(r[0].key, r[j].key)
      {
        assert r[j] in Filed(f[1..], m);
      }
    }
  }

  lemma Inhabited(f: Fields)
    ensures f == [] || exists x :: x in f
  {
    if f != [] {
      assert f[0] in f;
    }
  }

  lemma FirstIsLeast(f: Fields, g: Fields)
    requires f != [] && g != [] && Sorted(f) && Sorted(g) && SameFields(f, g)
    ensures f[0] == g[0]
  {
    hide Less;
    assert f[0] in g && g[0] in f;
    if f[0] != g[0] {
      assert Less(g[0].key, f[0].key) && Less(f[0].key, g[0].key);
      Asymmetric(f[0].key, g[0].key);
    }
  }

  lemma WithoutFirst(f: Fields, x: Field)
    requires f != [] && Sorted(f)
    ensures Sorted(f[1..]) && (x in f[1..] <==> x in f && x != f[0])
  {
    hide Less;
    LessIrreflexive(f[0].key);
    assert f == [f[0]] + f[1..];
    forall i | 0 <= i < |f[1..]|
      ensures f[1..][i] != f[0]
    {
      assert Less(f[0].key, f[i + 1].key);
    }
  }

  /** Fields have one order only. */
  lemma {:induction false} SortedUnique(f: Fields, g: Fields)
    requires Sorted(f) && Sorted(g) && SameFields(f, g)
    ensures f == g
    decreases |f|
  {
    hide Sorted;
    if f == [] {
      Inhabited(g);
    } else {
      assert f[0] in f;
      FirstIsLeast(f, g);
      forall x
        ensures x in f[1..] <==> x in g[1..]
      {
        WithoutFirst(f, x);
        WithoutFirst(g, x);
      }
      WithoutFirst(f, f[0]);
      WithoutFirst(g, f[0]);
      SortedUnique(f[1..], g[1..]);
      assert f == [f[0]] + f[1..] && g == [g[0]] + g[1..];
    }
  }

  /** The fields of `f` add up to `r` on top of those of `g`, and bring only new keys. */
  ghost predicate Extends(g: Fields, f: Fields, r: Fields) {
    && Sorted(g) && DistinctKeys(f) && (forall i :: 0 <= i < |f| ==> !HasKey(g, f[i].key))
    && (forall x :: x in r <==> x in g || x in f)
  }

  lemma ExtendsNext(g: Fields, f: Fields, r: Fields)
    requires f != [] && Extends(g, f, r)
    ensures !HasKey(g, f[0].key) && Extends(Filed(g, f[0]), f[1..], r)
  {
    hide Sorted, Filed, HasKey;
    FiledSorted(g, f[0]);
    assert f == [f[0]] + f[1..];
    forall i | 0 <= i < |f[1..]|
      ensures !HasKey(Filed(g, f[0]), f[1..][i].key)
    {
      assert f[1..][i] == f[i + 1];
      NotThere(g, f[0], f[i + 1].key);
    }
  }

  lemma NotThere(g: Fields, m: Field, k: string)
    requires Sorted(g) && !HasKey(g, m.key) && !HasKey(g, k) && k != m.key
    ensures !HasKey(Filed(g, m), k)
  {
    hide Filed, Sorted;
    FiledSorted(g, m);
    var h := Filed(g, m);
    forall i | 0 <= i < |h|
      ensures h[i].key != k
    {
      assert h[i] in h;
    }
  }

  lemma MemberStep(s: string, k: string, u: string, v: Json, rest: string)
    requires StringOf(s) == Some((k, u)) && k != "" && Skip(u) != "" && Skip(u)[0] == ':'
    requires Value(Skip(Skip(u)[1..])) == Some((v, rest))
    ensures Member(s) == Some((Field(k, v), rest))
  {
    hide Value, StringOf, Skip;
  }

  lemma {:induction false} PairReads(m: Pair, f: Field, tail: string)
    requires PairMeans(m, f) && Stops(tail)
    ensures Opens(Skip(PairText(m) + tail))
    ensures Member(Skip(PairText(m) + tail)) == Some((f, m.item.after + tail)) && Skip(m.item.after + tail) == tail
    decreases m, 0
  {
    hide Value, StringOf, Skip, ItemText, CharsText, ItemMeans, Blanks, Stops, Member, CharsMean;
    var t := ItemText(m.item) + tail;
    var u := m.gap + (":" + t);
    var s := "\"" + CharsText(m.key) + u;
    assert PairText(m) + tail == m.before + s;
    SkipTo(m.before, s);
    QuotationReads(m.key, f.key, u);
    SkipTo(m.gap, ":" + t);
    assert (":" + t)[1..] == t;
    ItemReads(m.item, f.value, tail);
    MemberStep(s, f.key, u, f.value, m.item.after + tail);
  }

  lemma MembersStep(s: string, g: Fields, m: Field, rest: string)
    requires Member(s) == Some((m, rest)) && Skip(rest) != "" && !HasKey(g, m.key)
    ensures var u := Skip(rest);
            && (u[0] == '}' ==> Members(s, g) == Some((Filed(g, m), u[1..])))
            && (u[0] == ',' ==> Members(s, g) == Members(Skip(u[1..]), Filed(g, m)))
  {
    hide Member, Skip, HasKey, Filed;
  }

  lemma {:induction false} PairsRead(pairs: seq<Pair>, f: Fields, g: Fields, r: Fields, rest: string)
    requires pairs != [] && PairsMean(pairs, f) && Extends(g, f, r) && Sorted(r)
    ensures Opens(Skip(PairsText(pairs) + rest)) && Members(Skip(PairsText(pairs) + rest), g) == Some((r, rest))
    decreases pairs, 1
  {
    hide Member, PairText, PairMeans, Members, Skip, Opens, Extends, Sorted, HasKey, Filed;
    var more := if |pairs| == 1 then rest else PairsText(pairs[1..]) + rest;
    var tail := (if |pairs| == 1 then "}" else ",") + more;
    assert PairsText(pairs) + rest == PairText(pairs[0]) + tail;
    assert tail[1..] == more;
    PairReads(pairs[0], f[0], tail);
    ExtendsNext(g, f, r);
    MembersStep(Skip(PairText(pairs[0]) + tail), g, f[0], pairs[0].item.after + tail);
    if |pairs| == 1 {
      Extended(Filed(g, f[0]), f[1..], r);
    } else {
      PairsRead(pairs[1..], f[1..], Filed(g, f[0]), r, rest);
    }
  }

  lemma Extended(g: Fields, f: Fields, r: Fields)
    requires f == [] && Extends(g, f, r) && Sorted(r)
    ensures g == r
  {
    hide Sorted;
    SortedUnique(g, r);
  }

  lemma {:induction false} RecordReads(inner: string, pairs: seq<Pair>, f: Fields, r: Fields, rest: string)
    requires Blanks(inner) && PairsMean(pairs, f) && DistinctKeys(f) && SameFields(f, r) && Sorted(r)
    ensures Value(Written(Record(inner, pairs)) + rest) == Some((Object(r), rest))
    decreases pairs, 2
  {
    hide Members, Elements, PairsText, PairMeans, Skip, Blanks, Less, StringOf, IntegerOf, Literal;
    var s := Written(Record(inner, pairs)) + rest;
    assert Extends([], f, r);
    if pairs == [] {
      Inhabited(r);
      assert s[1..] == inner + ("}" + rest);
      SkipTo(inner, "}" + rest);
      assert ("}" + rest)[1..] == rest;
    } else {
      assert s[1..] == PairsText(pairs) + rest;
      PairsRead(pairs, f, [], r, rest);
    }
  }

  // ------------------------------------------------------- whatever reads is a spelling of it

  lemma {:induction false} ValueSpelled(s: string) returns (x: Spelling)
    requires Value(s).Some?
    ensures Means(x, Value(s).value.0) && s == Written(x) + Value(s).value.1
    decreases |s|, 1
  {
    hide StringOf, IntegerOf, CharsText, NumberMeans, CharsMean, Elements, Members, ItemsText, PairsText, ItemMeans, PairMeans, Skip;
    if s[0] == 'n' {
      x := Nothing;
    } else if s[0] == 't' || s[0] == 'f' {
      x := Truth(s[0] == 't');
    } else if s[0] == '\"' {
      var cs := QuotationSpelled(s);
      x := Quotation(cs);
    } else if s[0] == '[' {
      x := RowSpelled(s);
    } else if s[0] == '{' {
      x := RecordSpelled(s);
    } else {
      var negative, d := NumberSpelled(s);
      x := Number(negative, d);
    }
  }

  /** The item at the head of a list, the blanks before it being given. */
  lemma {:induction false} ItemSpelled(before: string, s: string) returns (i: Item)
    requires Blanks(before) && Value(s).Some?
    ensures ItemMeans(i, Value(s).value.0) && before + s == ItemText(i) + Skip(Value(s).value.1)
    decreases |s|, 2
  {
    hide Value, Written, Means, Skip, Blanks;
    var x := ValueSpelled(s);
    var after := Skipped(Value(s).value.1);
    i := Item(before, x, after);
    assert before + s == before + Written(x) + after + Skip(Value(s).value.1);
  }

  lemma {:induction false} ItemsSpelled(before: string, s: string) returns (items: seq<Item>)
    requires Blanks(before) && Elements(s).Some?
    ensures items != [] && ItemsMean(items, Elements(s).value.0)
    ensures before + s == ItemsText(items) + Elements(s).value.1
    decreases |s|, 3
  {
    hide Value, ItemText, ItemMeans, Skip, Blanks;
    var i := ItemSpelled(before, s);
    var v := Value(s).value.0;
    var u := Skip(Value(s).value.1);
    if u[0] == ']' {
      items := [i];
      assert u == "]" + u[1..];
    } else {
      var gap := Skipped(u[1..]);
      items := ItemsSpelled(gap, Skip(u[1..]));
      assert ([i] + items)[1..] == items && u == "," + u[1..];
      items := [i] + items;
    }
  }

  lemma {:induction false} RowSpelled(s: string) returns (x: Spelling)
    requires s != "" && s[0] == '[' && Value(s).Some?
    ensures Means(x, Value(s).value.0) && s == Written(x) + Value(s).value.1
    decreases |s|, 0
  {
    hide Elements, ItemsText, ItemMeans, Skip, Blanks, Less;
    var inner := Skipped(s[1..]);
    var u := Skip(s[1..]);
    assert s == "[" + s[1..];
    if u != "" && u[0] == ']' {
      x := Row(inner, []);
      assert u == "]" + u[1..];
    } else {
      var items := ItemsSpelled(inner, u);
      x := Row("", items);
      NoBlanks();
    }
  }

  lemma NoBlanks()
    ensures Blanks("")
  {
  }

  lemma PairSpelled(before: string, s: string) returns (m: Pair)
    requires Blanks(before) && Member(s).Some?
    ensures PairMeans(m, Member(s).value.0) && before + s == PairText(m) + Skip(Member(s).value.1)
    decreases |s|, 3
  {
    hide Value, StringOf, Skip, ItemText, CharsText, ItemMeans, Blanks, CharsMean;
    var key := QuotationSpelled(s);
    var t := StringOf(s).value.1;
    var gap := Skipped(t);
    var u := Skip(t);
    var more := Skipped(u[1..]);
    assert u == ":" + u[1..];
    var i := ItemSpelled(more, Skip(u[1..]));
    m := Pair(before, key, gap, i);
    assert before + s == before + ("\"" + CharsText(key)) + gap + ":" + ItemText(i) + Skip(Member(s).value.1);
  }

  lemma ExtendsMore(g: Fields, m: Field, f: Fields, r: Fields)
    requires Sorted(g) && !HasKey(g, m.key) && Extends(Filed(g, m), f, r)
    ensures Extends(g, [m] + f, r)
  {
    hide Sorted, Filed, HasKey;
    FiledSorted(g, m);
    forall i | 0 <= i < |f|
      ensures !HasKey(g, f[i].key) && f[i].key != m.key
    {
      StillNotThere(g, m, f[i].key);
    }
  }

  lemma StillNotThere(g: Fields, m: Field, k: string)
    requires Sorted(g) && !HasKey(g, m.key) && !HasKey(Filed(g, m), k)
    ensures !HasKey(g, k) && k != m.key
  {
    hide Filed, Sorted;
    FiledSorted(g, m);
    var h := Filed(g, m);
    assert m in h;
    forall i | 0 <= i < |g|
      ensures g[i].key != k
    {
      assert g[i] in h;
    }
  }

  lemma {:induction false} PairsSpelled(before: string, s: string, g: Fields) returns (pairs: seq<Pair>, f: Fields)
    requires Blanks(before) && Sorted(g) && Members(s, g).Some?
    ensures pairs != [] && PairsMean(pairs, f) && Extends(g, f, Members(s, g).value.0) && Sorted(Members(s, g).value.0)
    ensures before + s == PairsText(pairs) + Members(s, g).value.1
    decreases |s|, 4
  {
    hide Member, PairText, PairMeans, Skip, Blanks, Sorted, Filed, HasKey, Extends;
    var p := PairSpelled(before, s);
    var m := Member(s).value.0;
    var u := Skip(Member(s).value.1);
    FiledSorted(g, m);
    if u[0] == '}' {
      pairs, f := [p], [m];
      assert u == "}" + u[1..];
      NothingMore(Filed(g, m));
      ExtendsMore(g, m, [], Filed(g, m));
      assert [m] + [] == [m];
    } else {
      var gap := Skipped(u[1..]);
      pairs, f := PairsSpelled(gap, Skip(u[1..]), Filed(g, m));
      ExtendsMore(g, m, f, Members(s, g).value.0);
      assert ([p] + pairs)[1..] == pairs && u == "," + u[1..];
      pairs, f := [p] + pairs, [m] + f;
    }
  }

  lemma NothingMore(g: Fields)
    requires Sorted(g)
    ensures Extends(g, [], g)
  {
    hide Sorted;
  }

  lemma {:induction false} RecordSpelled(s: string) returns (x: Spelling)
    requires s != "" && s[0] == '{' && Value(s).Some?
    ensures Means(x, Value(s).value.0) && s == Written(x) + Value(s).value.1
    decreases |s|, 0
  {
    hide Members, Elements, PairsText, PairMeans, Skip, Blanks, Less;
    var inner := Skipped(s[1..]);
    var u := Skip(s[1..]);
    assert s == "{" + s[1..];
    if u != "" && u[0] == '}' {
      x := Record(inner, []);
      assert u == "}" + u[1..];
      var f: Fields := [];
      assert DistinctKeys(f) && SameFields(f, []);
    } else {
      var pairs, f := PairsSpelled(inner, u, []);
      x := Record("", pairs);
      NoBlanks();
      assert DistinctKeys(f) && SameFields(f, Members(u, []).value.0);
    }
  }

  // -------------------------------------------------------------------------- main results

  /** A text reads as a value exactly when it is a spelling of it. */
  lemma DocumentReads(v: Json, s: string)
    ensures Document(s) == Some(v) <==> Spells(v, s)
  {
    hide Value, ItemText, ItemMeans, Skip, Blanks;
    if Document(s) == Some(v) {
      var before := Skipped(s);
      var d := ItemSpelled(before, Skip(s));
      assert ItemText(d) + "" == ItemText(d);
    }
    if Spells(v, s) {
      var d :| ItemMeans(d, v) && s == ItemText(d);
      assert ItemText(d) + "" == ItemText(d);
      ItemReads(d, v, "");
    }
  }

  /** Two texts read the same, and so have the same canonical text, when they spell the same value. */
  lemma SpellingsAgree(v: Json, s: string, t: string)
    requires Spells(v, s) && Spells(v, t)
    ensures Document(s).Some? && Document(t).Some? && Canonical(Document(s).value) == Canonical(Document(t).value)
  {
    hide Spells, Document;
    DocumentReads(v, s);
    DocumentReads(v, t);
  }

  /** A text spells one value only. */
  lemma SpellingUnique(v: Json, w: Json, s: string)
    requires Spells(v, s) && Spells(w, s)
    ensures v == w
  {
    hide Spells, Document;
    DocumentReads(v, s);
    DocumentReads(w, s);
  }
}
