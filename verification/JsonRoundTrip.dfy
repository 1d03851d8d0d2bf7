/** Canonical text is a spelling of its value, so it reads back as that value. */
module JsonRoundTrip {
  import opened Decimal
  import opened Json
  import opened JsonCanonical
  import opened JsonSpelling
  import opened Ordering

  // -------------------------------------------------------------------------- strings

  /** Any way of spelling a character as a four-digit escape reads as that character. */
  lemma HexEscapeReads(c: char, h: char, l: char, rest: string)
    requires c as int < 0x80 && HexDigit(h) == Some(c as int / 16) && HexDigit(l) == Some(c as int % 16)
    ensures OneChar("\\u00" + [h, l] + rest) == Some((c, rest))
  {
    hide OneChar;
    var x := Hex('0', '0', h, l);
    assert HexDigit('0') == Some(0);
    CharReads(x, c, rest);
    assert "\\u00" + [h, l] + rest == CharText(x) + rest;
  }

  lemma EscapeReads(c: char, rest: string)
    requires c as int < 0x80
    ensures OneChar(EscapeChar(c) + rest) == Some((c, rest)) && (EscapeChar(c) + rest)[0] != '\"'
  {
    hide OneChar, EscapeChar, CharMeans;
    var x := PreferredExists(c);
    PreferredText(x, c);
    CharReads(x, c, rest);
  }

  // --------------------------------------------------------------------------- values

  lemma PairOf(pairs: seq<Pair>, f: Fields, g: Fields, i: nat) returns (j: nat)
    requires PairsMean(pairs, f) && SameFields(f, g) && i < |g|
    ensures j < |pairs| && PairMeans(pairs[j], g[i])
  {
    hide PairMeans;
    assert g[i] in g;
    j :| j < |f| && f[j] == g[i];
  }

  /** Only representable values can be spelled. */
  lemma {:induction false} MeansRepresentable(x: Spelling, v: Json)
    requires Means(x, v)
    ensures Representable(v)
    decreases x
  {
    hide Less, DistinctKeys;
    match x
    case Row(_, items) =>
      forall i | 0 <= i < |items|
        ensures Representable(v.items[i])
      {
        MeansRepresentable(items[i].value, v.items[i]);
      }
    case Record(_, pairs) =>
      var f: Fields :| PairsMean(pairs, f) && DistinctKeys(f) && SameFields(f, v.fields);
      forall i | 0 <= i < |v.fields|
        ensures v.fields[i].key != "" && Ascii(v.fields[i].key) && Representable(v.fields[i].value)
      {
        var j := PairOf(pairs, f, v.fields, i);
        MeansRepresentable(pairs[j].item.value, v.fields[i].value);
      }
    case _ =>
  }

  // ------------------------------------------------------------------------ main results

  /** Canonical text is one of the value's spellings. */
  lemma CanonicalIsSpelling(v: Json)
    requires Representable(v)
    ensures Spells(v, Canonical(v))
  {
    hide Means, Written, Canonical;
    var x := CanonicExists(v);
    CanonicText(x, v);
    CanonicMeans(x, v);
    hide Canonic;
    var d := Item("", x, "");
    assert ItemText(d) == Canonical(v);
    assert ItemMeans(d, v);
  }

  /** Reading the canonical text of a value gives the value back. */
  lemma RoundTrip(v: Json)
    requires Representable(v)
    ensures Document(Canonical(v)) == Some(v)
  {
    hide Canonical, Representable, Spells, Document;
    CanonicalIsSpelling(v);
    DocumentReads(v, Canonical(v));
  }

  /** So canonical text identifies values. */
  lemma CanonicalInjective(v: Json, w: Json)
    requires Representable(v) && Representable(w) && Canonical(v) == Canonical(w)
    ensures v == w
  {
    RoundTrip(v);
    RoundTrip(w);
  }

  lemma SpelledIsRepresentable(v: Json, s: string)
    requires Spells(v, s)
    ensures Representable(v)
  {
    hide Means, Representable;
    var d: Item :| ItemMeans(d, v) && s == ItemText(d);
    MeansRepresentable(d.value, v);
  }

  /** The canonical text of any accepted document is accepted, reads as the same value, and is its own
      canonical text. */
  lemma CanonicalIsFixed(s: string)
    requires Document(s).Some?
    ensures Representable(Document(s).value)
    ensures Document(Canonical(Document(s).value)) == Document(s)
  {
    hide Canonical, Representable, Spells, Document;
    var v := Document(s).value;
    DocumentReads(v, s);
    SpelledIsRepresentable(v, s);
    RoundTrip(v);
  }

  /** In every object of an accepted document each key stands before the next in byte order. */
  lemma AcceptedOrdered(s: string)
    requires Document(s).Some?
    ensures Ordered(Document(s).value)
  {
    hide Representable, Ordered, Document, Canonical;
    CanonicalIsFixed(s);
    RepresentableOrdered(Document(s).value);
  }

  /** Two documents have the same canonical text exactly when they spell the same value: blanks, the order
      of members and the choice of escapes never matter, and nothing else is lost. */
  lemma CanonicalDecides(v: Json, w: Json, s: string, t: string)
    requires Spells(v, s) && Spells(w, t)
    ensures Document(s) == Some(v) && Document(t) == Some(w)
    ensures Canonical(v) == Canonical(w) <==> v == w
  {
    hide Canonical, Representable, Spells, Document;
    DocumentReads(v, s);
    DocumentReads(w, t);
    SpelledIsRepresentable(v, s);
    SpelledIsRepresentable(w, t);
    if Canonical(v) == Canonical(w) {
      CanonicalInjective(v, w);
    }
  }

  /** Two members of different keys may be filed in either order. */
  lemma {:induction false} FilingCommutes(f: Fields, m: Field, n: Field)
    requires m.key != n.key && Sorted(f)
    ensures Filed(Filed(f, m), n) == Filed(Filed(f, n), m)
    decreases |f|
  {
    hide Sorted;
    LessTotal(m.key, n.key);
    Asymmetric(m.key, n.key);
    if f != [] {
      SortedTail(f);
      FilingCommutes(f[1..], m, n);
      Between(m.key, n.key, f[0].key);
      Between(n.key, m.key, f[0].key);
    }
  }

  lemma SortedTail(f: Fields)
    requires f != [] && Sorted(f)
    ensures Sorted(f[1..])
  {
  }

  lemma Between(a: string, b: string, c: string)
    ensures Less(a, b) && Less(b, c) ==> Less(a, c)
  {
    if Less(a, b) && Less(b, c) {
      LessTransitive(a, b, c);
    }
  }
}
