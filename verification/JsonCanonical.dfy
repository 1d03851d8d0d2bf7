/** Canonical text told apart from all other spellings: no blanks, no escape where none is needed and the
    short one where there is one, keys in byte order. */
module JsonCanonical {
  import opened Decimal
  import opened Json
  import opened JsonSpelling
  import opened Ordering

  // --------------------------------------------------------------------------- characters

  /** The character has an escape by letter; an escaped slash does not count. */
  ghost predicate Lettered(c: char) {
    exists l: char :: l != '/' && SimpleEscape(l) == Some(c)
  }

  predicate LowerHex(h: char) { '0' <= h <= '9' || 'a' <= h <= 'f' }

  /** By letter where there is one, by lower-case code for the other control characters, else plain. */
  ghost predicate Preferred(x: Character, c: char) {
    && CharMeans(x, c)
    && match x
       case Short(l) => l != '/'
       case Plain(_) => !Lettered(c)
       case Hex(h0, h1, h2, h3) => !Lettered(c) && c as int < 0x20 && LowerHex(h0) && LowerHex(h1) && LowerHex(h2) && LowerHex(h3)
  }

  lemma LetteredAre(c: char)
    ensures Lettered(c) <==> c == '\"' || c == '\\' || c == 8 as char || c == 12 as char || c == '\n' || c == '\r' || c == '\t'
  {
    assert SimpleEscape('\"') == Some('\"') && SimpleEscape('\\') == Some('\\') && SimpleEscape('b') == Some(8 as char);
    assert SimpleEscape('f') == Some(12 as char) && SimpleEscape('n') == Some('\n') && SimpleEscape('r') == Some('\r');
    assert SimpleEscape('t') == Some('\t');
  }

  lemma LowerDigit(h: char)
    requires LowerHex(h)
    ensures HexDigit(h).Some? && HexDigit(h).value < 16 && HEX[HexDigit(h).value] == h
  {
    var n := HexDigit(h).value;
    if h <= '9' {
      assert HEX[n] == ('0' as int + n) as char;
    } else {
      assert HEX[n] == ('a' as int + n - 10) as char;
    }
  }

  lemma DigitLower(n: nat)
    requires n < 16
    ensures LowerHex(HEX[n]) && HexDigit(HEX[n]) == Some(n)
  {
  }

  lemma HexParts(a: nat, b: nat, c: nat, d: nat, n: nat)
    requires a < 16 && b < 16 && c < 16 && d < 16 && n == 16 * (16 * (16 * a + b) + c) + d && n < 0x20
    ensures a == 0 && b == 0 && c == n / 16 && d == n % 16
  {
  }

  /** The preferred spelling is the one printed. */
  lemma PreferredText(x: Character, c: char)
    requires Preferred(x, c)
    ensures CharText(x) == EscapeChar(c)
  {
    LetteredAre(c);
    match x
    case Plain(_) =>
    case Short(l) =>
      assert Lettered(c);
    case Hex(h0, h1, h2, h3) =>
      LowerDigit(h0);
      LowerDigit(h1);
      LowerDigit(h2);
      LowerDigit(h3);
      HexParts(HexDigit(h0).value, HexDigit(h1).value, HexDigit(h2).value, HexDigit(h3).value, c as int);
  }

  lemma PreferredExists(c: char) returns (x: Character)
    requires c as int < 0x80
    ensures Preferred(x, c)
  {
    LetteredAre(c);
    if Lettered(c) {
      var l: char :| l != '/' && SimpleEscape(l) == Some(c);
      x := Short(l);
    } else if c as int >= 0x20 {
      x := Plain(c);
    } else {
      hide HexDigit, LowerHex, Lettered;
      DigitLower(0);
      DigitLower(c as int / 16);
      DigitLower(c as int % 16);
      x := Hex(HEX[0], HEX[0], HEX[c as int / 16], HEX[c as int % 16]);
    }
  }

  ghost predicate AllPreferred(cs: seq<Character>, s: string) {
    |cs| == |s| && forall i :: 0 <= i < |cs| ==> Preferred(cs[i], s[i])
  }

  lemma {:induction false} PreferredQuoted(cs: seq<Character>, s: string)
    requires AllPreferred(cs, s)
    ensures CharsText(cs) == Escaped(s) + "\""
    decreases |cs|
  {
    hide Preferred, CharText, EscapeChar;
    if cs != [] {
      PreferredText(cs[0], s[0]);
      PreferredQuoted(cs[1..], s[1..]);
    }
  }

  lemma {:induction false} AllPreferredExist(s: string) returns (cs: seq<Character>)
    requires Ascii(s)
    ensures AllPreferred(cs, s)
    decreases |s|
  {
    hide Preferred;
    if s == "" {
      cs := [];
    } else {
      var x := PreferredExists(s[0]);
      cs := AllPreferredExist(s[1..]);
      cs := [x] + cs;
    }
  }

  // ------------------------------------------------------------------------------ numbers

  lemma {:induction false} LeadingPositive(d: string)
    requires d != "" && (forall i :: 0 <= i < |d| ==> '0' <= d[i] <= '9') && d[0] != '0'
    ensures ValueOf(d) > 0
    decreases |d|
  {
    if |d| > 1 {
      LeadingPositive(d[..|d| - 1]);
    }
  }

  lemma NumeralStep(q: nat, last: nat, c: char)
    requires '0' <= c <= '9' && last == c as int - '0' as int
    ensures Numeral(10 * q + last) == if q == 0 then [c] else Numeral(q) + [c]
  {
    var n := 10 * q + last;
    assert DIGITS[last] == c;
    assert n / 10 == q && n % 10 == last;
  }

  /** A number has one numeral only. */
  lemma {:induction false} NumeralUnique(d: string)
    requires d != "" && (forall i :: 0 <= i < |d| ==> '0' <= d[i] <= '9') && (d[0] == '0' ==> |d| == 1)
    ensures Numeral(ValueOf(d)) == d
    decreases |d|
  {
    hide Numeral, ValueOf;
    var n := |d| - 1;
    ValueLast(d);
    NumeralStep(ValueOf(d[..n]), d[n] as int - '0' as int, d[n]);
    assert d == d[..n] + [d[n]];
    if n > 0 {
      LeadingPositive(d[..n]);
      NumeralUnique(d[..n]);
    }
  }

  lemma ValueLast(d: string)
    requires d != "" && forall i :: 0 <= i < |d| ==> '0' <= d[i] <= '9'
    ensures ValueOf(d) == 10 * ValueOf(d[..|d| - 1]) + (d[|d| - 1] as int - '0' as int)
    ensures |d| == 1 ==> ValueOf(d[..|d| - 1]) == 0
  {
    if |d| == 1 {
      assert d[..0] == "";
    }
  }

  // ------------------------------------------------------------------------------- values

  /** The spelling is the canonical one of the value. */
  ghost predicate Canonic(x: Spelling, v: Json)
    decreases x
  {
    match x
    case Nothing => v == Null
    case Truth(b) => v == Boolean(b)
    case Number(negative, digits) => v.Integer? && NumberMeans(negative, digits, v.number) && (negative ==> v.number != 0)
    case Quotation(cs) => v.Text? && AllPreferred(cs, v.text)
    case Row(inner, items) =>
      && v.Array? && inner == "" && |items| == |v.items|
      && forall i :: 0 <= i < |items| ==> ItemCanonic(items[i], v.items[i])
    case Record(inner, pairs) =>
      && v.Object? && inner == "" && |pairs| == |v.fields| && KeysPrecede(v.fields)
      && forall i :: 0 <= i < |pairs| ==> PairCanonic(pairs[i], v.fields[i])
  }

  ghost predicate ItemCanonic(i: Item, v: Json)
    decreases i
  {
    i.before == "" && Canonic(i.value, v) && i.after == ""
  }

  ghost predicate PairCanonic(m: Pair, f: Field)
    decreases m
  {
    m.before == "" && f.key != "" && AllPreferred(m.key, f.key) && m.gap == "" && ItemCanonic(m.item, f.value)
  }

  /** Each key stands before the next in byte order. */
  ghost predicate KeysPrecede(f: Fields) {
    forall i :: 0 < i < |f| ==> Precedes(f[i - 1].key, f[i].key)
  }

  lemma {:induction false} PrecedingSorted(f: Fields, i: nat, j: nat)
    requires KeysPrecede(f) && i < j < |f|
    ensures Less(f[i].key, f[j].key)
    decreases j - i
  {
    hide Less, Precedes;
    LessIs(f[j - 1].key, f[j].key);
    if i < j - 1 {
      PrecedingSorted(f, i, j - 1);
      LessTransitive(f[i].key, f[j - 1].key, f[j].key);
    }
  }

  lemma SortedIsPreceding(f: Fields)
    ensures Sorted(f) <==> KeysPrecede(f)
  {
    hide Less, Precedes;
    if Sorted(f) {
      forall i | 0 < i < |f|
        ensures Precedes(f[i - 1].key, f[i].key)
      {
        LessIs(f[i - 1].key, f[i].key);
      }
    }
    if KeysPrecede(f) {
      forall i, j | 0 <= i < j < |f|
        ensures Less(f[i].key, f[j].key)
      {
        PrecedingSorted(f, i, j);
      }
    }
  }

  // ---------- its text

  lemma CanonicNumber(negative: bool, digits: string, n: int)
    requires NumberMeans(negative, digits, n) && (negative ==> n != 0)
    ensures NumberText(negative, digits) == Signed(n)
  {
    NumeralUnique(digits);
    hide Numeral, ValueOf;
  }

  /** A canonical spelling of a value is written as its canonical text. */
  lemma {:induction false} CanonicText(x: Spelling, v: Json)
    requires Canonic(x, v)
    ensures Written(x) == Canonical(v)
    decreases x, 0
  {
    hide AllPreferred, NumberMeans, CharsText, Signed, NumberText, ItemsText, PairsText, Joined, JoinedFields, ItemCanonic, PairCanonic,
      KeysPrecede, Escaped;
    match x
    case Nothing =>
    case Truth(b) =>
    case Number(negative, digits) => CanonicNumber(negative, digits, v.number);
    case Quotation(cs) => PreferredQuoted(cs, v.text);
    case Row(inner, items) => ItemsCanonicText(items, v.items); assert "" + "]" == "]";
    case Record(inner, pairs) => PairsCanonicText(pairs, v.fields); assert "" + "}" == "}";
  }

  lemma {:induction false} ItemsCanonicText(items: seq<Item>, vs: seq<Json>)
    requires |items| == |vs| && forall i :: 0 <= i < |items| ==> ItemCanonic(items[i], vs[i])
    ensures (if items == [] then "]" else ItemsText(items)) == Joined(vs) + "]"
    decreases items, 1
  {
    hide Canonic, Written, Canonical;
    if items != [] {
      CanonicText(items[0].value, vs[0]);
      assert ItemText(items[0]) == Canonical(vs[0]);
      ItemsCanonicText(items[1..], vs[1..]);
    }
  }

  lemma {:induction false} PairsCanonicText(pairs: seq<Pair>, f: Fields)
    requires |pairs| == |f| && forall i :: 0 <= i < |pairs| ==> PairCanonic(pairs[i], f[i])
    ensures (if pairs == [] then "}" else PairsText(pairs)) == JoinedFields(f) + "}"
    decreases pairs, 1
  {
    hide Canonic, Written, Canonical, CharsText, Escaped, AllPreferred;
    if pairs != [] {
      var m := pairs[0];
      PreferredQuoted(m.key, f[0].key);
      assert PairCanonic(m, f[0]) && ItemCanonic(m.item, f[0].value);
      CanonicText(m.item.value, f[0].value);
      assert PairText(m) == Quoted(f[0].key) + ":" + Canonical(f[0].value);
      PairsCanonicText(pairs[1..], f[1..]);
    }
  }

  // ---------- it is a spelling

  lemma AllPreferredMean(cs: seq<Character>, s: string)
    requires AllPreferred(cs, s)
    ensures CharsMean(cs, s)
  {
    hide CharMeans;
    forall i | 0 <= i < |cs|
      ensures CharMeans(cs[i], s[i])
    {
      assert Preferred(cs[i], s[i]);
    }
  }

  lemma SortedIsDistinct(f: Fields)
    requires Sorted(f)
    ensures DistinctKeys(f)
  {
    forall i, j | 0 <= i < j < |f|
      ensures f[i].key != f[j].key
    {
      LessIrreflexive(f[i].key);
    }
  }

  lemma RecordMeans(xs: seq<Pair>, f: Fields)
    requires PairsMean(xs, f) && Sorted(f)
    ensures Means(Record("", xs), Object(f))
  {
    hide PairMeans, Sorted, Less;
    SortedIsDistinct(f);
    assert SameFields(f, f);
    hide DistinctKeys, SameFields;
    assert |xs| == |f| && (forall i :: 0 <= i < |xs| ==> PairMeans(xs[i], f[i])) && DistinctKeys(f) && SameFields(f, f);
  }

  lemma {:induction false} CanonicMeans(x: Spelling, v: Json)
    requires Canonic(x, v)
    ensures Means(x, v)
    decreases x
  {
    hide NumberMeans, CharsMean, AllPreferred, Sorted, KeysPrecede, SameFields, DistinctKeys;
    match x
    case Nothing =>
    case Truth(_) =>
    case Number(_, _) =>
    case Quotation(cs) => AllPreferredMean(cs, v.text);
    case Row(_, items) =>
      forall i | 0 <= i < |items|
        ensures ItemMeans(items[i], v.items[i])
      {
        assert ItemCanonic(items[i], v.items[i]);
        CanonicMeans(items[i].value, v.items[i]);
      }
    case Record(_, pairs) =>
      forall i | 0 <= i < |pairs|
        ensures PairMeans(pairs[i], v.fields[i])
      {
        assert PairCanonic(pairs[i], v.fields[i]) && ItemCanonic(pairs[i].item, v.fields[i].value);
        AllPreferredMean(pairs[i].key, v.fields[i].key);
        CanonicMeans(pairs[i].item.value, v.fields[i].value);
      }
      SortedIsPreceding(v.fields);
      hide PairMeans, Means;
      RecordMeans(pairs, v.fields);
  }

  // ---------- every value has one

  lemma NumberCanonic(n: int)
    requires -MAX_SAFE <= n <= MAX_SAFE
    ensures Canonic(Number(n < 0, Numeral(if n < 0 then -n else n)), Integer(n))
  {
    NumeralValue(if n < 0 then -n else n);
  }

  lemma {:induction false} CanonicExists(v: Json) returns (x: Spelling)
    requires Representable(v)
    ensures Canonic(x, v)
    decreases v
  {
    hide NumberMeans, AllPreferred, Sorted, KeysPrecede, ItemCanonic, PairCanonic, Ascii;
    match v
    case Null => x := Nothing;
    case Boolean(b) => x := Truth(b);
    case Integer(n) => NumberCanonic(n); x := Number(n < 0, Numeral(if n < 0 then -n else n));
    case Text(s) => var cs := AllPreferredExist(s); x := Quotation(cs);
    case Array(items) => var xs := ItemsCanonic(items); x := Row("", xs);
    case Object(f) => SortedIsPreceding(f); var xs := PairsCanonic(f); x := Record("", xs);
  }

  lemma {:induction false} ItemsCanonic(items: seq<Json>) returns (xs: seq<Item>)
    requires forall i :: 0 <= i < |items| ==> Representable(items[i])
    ensures |xs| == |items| && forall i :: 0 <= i < |xs| ==> ItemCanonic(xs[i], items[i])
    decreases items
  {
    hide Canonic, Representable;
    if items == [] {
      xs := [];
    } else {
      var x := CanonicExists(items[0]);
      xs := ItemsCanonic(items[1..]);
      assert ItemCanonic(Item("", x, ""), items[0]);
      xs := [Item("", x, "")] + xs;
    }
  }

  lemma {:induction false} PairsCanonic(f: Fields) returns (xs: seq<Pair>)
    requires forall i :: 0 <= i < |f| ==> f[i].key != "" && Ascii(f[i].key) && Representable(f[i].value)
    ensures |xs| == |f| && forall i :: 0 <= i < |xs| ==> PairCanonic(xs[i], f[i])
    decreases f
  {
    hide Canonic, Representable, Ascii, AllPreferred;
    if f == [] {
      xs := [];
    } else {
      var cs := AllPreferredExist(f[0].key);
      var x := CanonicExists(f[0].value);
      var m := Pair("", cs, "", Item("", x, ""));
      xs := PairsCanonic(f[1..]);
      assert PairCanonic(m, f[0]);
      hide PairCanonic;
      xs := [m] + xs;
    }
  }

  /** Canonical text is exactly the text of the canonical spelling. */
  lemma CanonicalIs(v: Json, s: string)
    requires Representable(v)
    ensures s == Canonical(v) <==> exists x :: Canonic(x, v) && s == Written(x)
  {
    hide Canonic, Written, Canonical, Representable;
    var x := CanonicExists(v);
    CanonicText(x, v);
    if y :| Canonic(y, v) && s == Written(y) {
      CanonicText(y, v);
    }
  }

  /** Every object inside the value has its keys in byte order. */
  ghost predicate Ordered(v: Json)
    decreases v
  {
    match v
    case Array(items) => forall i :: 0 <= i < |items| ==> Ordered(items[i])
    case Object(f) => KeysPrecede(f) && forall i :: 0 <= i < |f| ==> Ordered(f[i].value)
    case _ => true
  }

  lemma {:induction false} RepresentableOrdered(v: Json)
    requires Representable(v)
    ensures Ordered(v)
    decreases v
  {
    hide Sorted, KeysPrecede, Ascii;
    match v
    case Array(items) =>
      forall i | 0 <= i < |items|
        ensures Ordered(items[i])
      {
        RepresentableOrdered(items[i]);
      }
    case Object(f) =>
      SortedIsPreceding(f);
      forall i | 0 <= i < |f|
        ensures Ordered(f[i].value)
      {
        RepresentableOrdered(f[i].value);
      }
    case _ =>
  }
}
