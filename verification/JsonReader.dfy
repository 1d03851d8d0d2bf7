/** The recursive-descent parser over a position in the input, proved against the grammar functions. */
module JsonReader {
  import opened Decimal
  import opened Json

  /** What reading should give: a value with the position moved to what is left, or a failure. */
  ghost predicate Gives<T>(r: Read<T>, ok: bool, value: T, rest: string) {
    if ok then r == Some((value, rest)) else r.None?
  }

  function Prepended<T>(done: seq<T>, r: Read<seq<T>>): Read<seq<T>> {
    if r.None? then None else Some((done + r.value.0, r.value.1))
  }

  class JsonParser {
    const input: string
    var position: nat

    ghost predicate Valid()
      reads this
    {
      position <= |input|
    }

    function Rest(): string
      reads this
      requires Valid()
    {
      input[position..]
    }

    constructor (input: string)
      ensures Valid() && this.input == input && Rest() == input
    {
      this.input := input;
      position := 0;
    }

    predicate AtEnd()
      reads this
    {
      position >= |input|
    }

    /** The next character, or the null character at the end. */
    function Peek(): char
      reads this
      requires Valid()
    {
      if AtEnd() then 0 as char else input[position]
    }

    method Take() returns (ok: bool, c: char)
      requires Valid()
      modifies this`position
      ensures Valid() && ok == (old(Rest()) != "")
      ensures ok ==> c == old(Rest())[0] && Rest() == old(Rest())[1..] && position == old(position) + 1
      ensures !ok ==> position == old(position)
    {
      ok, c := !AtEnd(), 0 as char;
      if ok {
        c := input[position];
        position := position + 1;
      }
    }

    method SkipWhitespace()
      requires Valid()
      modifies this`position
      ensures Valid() && Rest() == Skip(old(Rest())) && position >= old(position)
    {
      while !AtEnd() && Blank(Peek())
        invariant Valid() && position >= old(position) && Skip(Rest()) == Skip(old(Rest()))
        decreases |input| - position
      {
        assert Rest()[1..] == input[position + 1..];
        position := position + 1;
      }
    }

    method ParseLiteral(word: string) returns (ok: bool)
      requires Valid()
      modifies this`position
      ensures Valid() && position >= old(position)
      ensures ok == Literal(old(Rest()), word).Some? && (ok ==> Rest() == Literal(old(Rest()), word).value)
    {
      ghost var s := Rest();
      for i := 0 to |word|
        invariant Valid() && position == old(position) + i && i <= |s| && s[..i] == word[..i] && Rest() == s[i..]
      {
        var fine, c := Take();
        if !fine || c != word[i] {
          NotPrefix(s, word, i);
          return false;
        }
      }
      return true;
    }

    /** Four hexadecimal digits, most significant first. */
    method ParseHexQuad() returns (ok: bool, code: nat)
      requires Valid()
      modifies this`position
      ensures Valid() && position >= old(position)
      ensures Gives(HexQuad(old(Rest()), 4, 0), ok, code, Rest())
    {
      code := 0;
      for i := 0 to 4
        invariant Valid() && position >= old(position)
        invariant HexQuad(Rest(), 4 - i, code) == HexQuad(old(Rest()), 4, 0)
      {
        var fine, c := Take();
        if !fine || HexDigit(c).None? {
          return false, code;
        }
        code := 16 * code + HexDigit(c).value;
      }
      return true, code;
    }

    /** One character of a string; the caller has seen that it is not the closing quote. */
    method ParseChar() returns (ok: bool, c: char)
      requires Valid() && (Rest() != "" ==> Rest()[0] != '\"')
      modifies this`position
      ensures Valid() && position >= old(position)
      ensures Gives(OneChar(old(Rest())), ok, c, Rest())
    {
      ghost var s := Rest();
      ok, c := Take();
      if !ok || c as int < 0x20 || c as int >= 0x80 {
        return false, c;
      }
      if c != '\\' {
        return;
      }
      var escape;
      ok, escape := Take();
      if !ok {
        return;
      }
      assert Rest() == s[2..];
      if escape == 'u' {
        var code;
        ok, code := ParseHexQuad();
        if !ok || code > 0x7f {
          return false, c;
        }
        c := code as char;
      } else {
        ok := SimpleEscape(escape).Some?;
        if ok {
          c := SimpleEscape(escape).value;
        }
      }
    }

    method ParseString() returns (ok: bool, output: string)
      requires Valid()
      modifies this`position
      ensures Valid() && position >= old(position) && (ok ==> position > old(position))
      ensures Gives(StringOf(old(Rest())), ok, output, Rest())
    {
      hide OneChar;
      output := "";
      var c;
      ok, c := Take();
      if !ok || c != '\"' {
        return false, output;
      }
      ghost var start := Rest();
      PrependNothing(Chars(start));
      while true
        invariant Valid() && position > old(position)
        invariant Prepended(output, Chars(Rest())) == Chars(start)
        decreases |input| - position
      {
        if AtEnd() {
          assert OneChar("").None? by { OneCharNeedsOne(); }
          return false, output;
        }
        if Peek() == '\"' {
          ok, c := Take();
          assert output + "" == output;
          return true, output;
        }
        ghost var before := Rest();
        ok, c := ParseChar();
        if !ok {
          return;
        }
        PrependChar(output, before, c, Rest());
        output := output + [c];
      }
    }

    method ParseInteger() returns (ok: bool, value: int)
      requires Valid() && (Peek() == '-' || Digit(Peek()))
      modifies this`position
      ensures Valid() && position >= old(position) && (ok ==> position > old(position))
      ensures Gives(IntegerOf(old(Rest())), ok, value, Rest())
    {
      hide ValueOf, Gives, Magnitude, IntegerOf;
      value := 0;
      ghost var all := Rest();
      var negative := Peek() == '-';
      if negative {
        position := position + 1;
      }
      ghost var s := Rest();
      var magnitude;
      ok, magnitude := ParseMagnitude();
      IntegerGives(all, negative, s, ok, magnitude, Rest());
      if !ok || (!AtEnd() && Fractional(Peek())) || magnitude > MAX_SAFE {
        return false, value;
      }
      value := if negative then -(magnitude as int) else magnitude;
    }

    /** The digits, from the first one. */
    method SkipDigits()
      requires Valid()
      modifies this`position
      ensures Valid() && position == old(position) + DigitRun(old(Rest()))
      ensures Rest() == old(Rest())[DigitRun(old(Rest()))..]
    {
      hide DigitRun;
      ghost var s, start := Rest(), position;
      while !AtEnd() && Digit(Peek())
        invariant Valid() && start <= position <= start + DigitRun(s)
        decreases |input| - position
      {
        assert s[position - start] == input[position];
        position := position + 1;
      }
      assert DigitRun(s) == position - start;
      assert input[start..][DigitRun(s)..] == input[position..];
    }

    method ParseMagnitude() returns (ok: bool, magnitude: nat)
      requires Valid()
      modifies this`position
      ensures Valid() && position >= old(position) && (ok ==> position > old(position))
      ensures Gives(Magnitude(old(Rest())), ok, magnitude, Rest())
    {
      hide ValueOf;
      magnitude := 0;
      if AtEnd() || !Digit(Peek()) {
        return false, magnitude;
      }
      ghost var s := Rest();
      var start := position;
      if Peek() == '0' {
        position := position + 1;
        ok := AtEnd() || !Digit(Peek());
        return;
      }
      SkipDigits();
      hide DigitRun;
      assert input[start..position] == s[..position - start];
      return true, ValueOf(input[start..position]);
    }

    method ParseValue() returns (ok: bool, v: Json)
      requires Valid()
      modifies this`position
      ensures Valid() && position >= old(position) && (ok ==> position > old(position))
      ensures Gives(Value(old(Rest())), ok, v, Rest())
      decreases |input| - position, 3
    {
      hide StringOf, IntegerOf, Elements, Members, Literal;
      v := Null;
      if AtEnd() {
        return false, v;
      }
      var c := Peek();
      if c == 'n' {
        ok := ParseWord("null");
      } else if c == 't' {
        ok := ParseWord("true");
        v := Boolean(true);
      } else if c == 'f' {
        ok := ParseWord("false");
        v := Boolean(false);
      } else if c == '\"' {
        var t;
        ok, t := ParseString();
        v := Text(t);
      } else if c == '[' {
        ok, v := ParseArray();
      } else if c == '{' {
        ok, v := ParseObject();
      } else if c == '-' || Digit(c) {
        var n;
        ok, n := ParseInteger();
        v := Integer(n);
      } else {
        ok := false;
      }
    }

    /** A literal, seen from its first character. */
    method ParseWord(word: string) returns (ok: bool)
      requires Valid() && word != ""
      modifies this`position
      ensures Valid() && position >= old(position) && (ok ==> position > old(position))
      ensures ok == Literal(old(Rest()), word).Some? && (ok ==> Rest() == Literal(old(Rest()), word).value)
    {
      ok := ParseLiteral(word);
      if ok {
        assert |Rest()| < |old(Rest())|;
      }
    }

    /** Past an opening bracket and the blanks after it. */
    method Open()
      requires Valid() && !AtEnd()
      modifies this`position
      ensures Valid() && position > old(position)
      ensures Rest() == Skip(old(Rest())[1..]) && Skip(Rest()) == Rest()
    {
      hide Skip;
      ghost var all := Rest();
      var ok, c := Take();
      SkipWhitespace();
      SkipTwice(all[1..]);
    }

    method ParseArray() returns (ok: bool, v: Json)
      requires Valid() && !AtEnd() && Peek() == '['
      modifies this`position
      ensures Valid() && position > old(position)
      ensures Gives(Value(old(Rest())), ok, v, Rest())
      decreases |input| - position, 2
    {
      hide Elements, Value, Skip;
      ghost var all := Rest();
      Open();
      ghost var u := Rest();
      var values: seq<Json> := [];
      if Peek() == ']' {
        var c;
        ok, c := Take();
        ArrayEmpty(all, u);
      } else {
        ok, values := ParseElements();
        ArrayGives(all, u, ok, values, Rest());
      }
      v := Array(values);
    }

    method ParseElements() returns (ok: bool, values: seq<Json>)
      requires Valid() && Skip(Rest()) == Rest()
      modifies this`position
      ensures Valid() && position >= old(position)
      ensures Gives(Elements(old(Rest())), ok, values, Rest())
      decreases |input| - position, 4
    {
      hide Value, Skip, Elements;
      ghost var start := Rest();
      values := [];
      PrependNothing(Elements(start));
      while true
        invariant Valid() && position >= old(position) && Skip(Rest()) == Rest()
        invariant Prepended(values, Elements(Rest())) == Elements(start)
        decreases |input| - position
      {
        SkipWhitespace();
        ghost var s := Rest();
        var v, separator;
        ok, v := ParseValue();
        if !ok {
          ElementsFail(s);
          return;
        }
        ghost var u := Rest();
        SkipWhitespace();
        ghost var w := Rest();
        ok, separator := Take();
        ElementsStep(s, v, u, w);
        if !ok || (separator != ']' && separator != ',') {
          return false, values;
        }
        if separator == ']' {
          return true, values + [v];
        }
        SkipWhitespace();
        SkipTwice(w[1..]);
        PrependValue(values, v, Elements(Rest()));
        values := values + [v];
      }
    }

    method ParseObject() returns (ok: bool, v: Json)
      requires Valid() && !AtEnd() && Peek() == '{'
      modifies this`position
      ensures Valid() && position > old(position)
      ensures Gives(Value(old(Rest())), ok, v, Rest())
      decreases |input| - position, 2
    {
      hide Members, Value, Skip;
      ghost var all := Rest();
      Open();
      ghost var u := Rest();
      var fields: Fields := [];
      if Peek() == '}' {
        var c;
        ok, c := Take();
        ObjectEmpty(all, u);
      } else {
        ok, fields := ParseMembers();
        ObjectGives(all, u, ok, fields, Rest());
      }
      v := Object(fields);
    }

    method ParseMember() returns (ok: bool, m: Field)
      requires Valid()
      modifies this`position
      ensures Valid() && position >= old(position) && (ok ==> position > old(position))
      ensures Gives(Member(old(Rest())), ok, m, Rest())
      decreases |input| - position, 4
    {
      hide Value, Skip, StringOf;
      m := Field("", Null);
      var key, c, v;
      ok, key := ParseString();
      if !ok || key == "" {
        return false, m;
      }
      SkipWhitespace();
      ok, c := Take();
      if !ok || c != ':' {
        return false, m;
      }
      SkipWhitespace();
      ok, v := ParseValue();
      m := Field(key, v);
    }

    method ParseMembers() returns (ok: bool, fields: Fields)
      requires Valid() && Skip(Rest()) == Rest()
      modifies this`position
      ensures Valid() && position >= old(position)
      ensures Gives(Members(old(Rest()), []), ok, fields, Rest())
      decreases |input| - position, 5
    {
      hide Member, Skip, Filed, HasKey, Members;
      ghost var start := Rest();
      fields := [];
      while true
        invariant Valid() && position >= old(position) && Skip(Rest()) == Rest()
        invariant Members(Rest(), fields) == Members(start, [])
        decreases |input| - position
      {
        SkipWhitespace();
        ghost var s := Rest();
        var m, separator;
        ok, m := ParseMember();
        if !ok || HasKey(fields, m.key) {
          MembersFail(s, fields);
          return false, fields;
        }
        ghost var u := Rest();
        SkipWhitespace();
        ghost var w := Rest();
        ok, separator := Take();
        MembersStep(s, fields, m, u, w);
        if !ok || (separator != '}' && separator != ',') {
          return false, fields;
        }
        fields := Filed(fields, m);
        if separator == '}' {
          return true, fields;
        }
        SkipWhitespace();
        SkipTwice(w[1..]);
      }
    }

    method Parse() returns (ok: bool, v: Json)
      requires Valid() && position == 0
      modifies this`position
      ensures ok == Document(input).Some? && (ok ==> v == Document(input).value)
    {
      hide Value, Skip;
      assert Rest() == input;
      SkipWhitespace();
      ok, v := ParseValue();
      if ok {
        SkipWhitespace();
        ok := position == |input|;
        assert ok <==> Rest() == "";
      }
    }
  }

  lemma OneCharNeedsOne()
    ensures OneChar("").None?
  {
  }

  lemma IntegerGives(all: string, negative: bool, s: string, ok: bool, magnitude: nat, rest: string)
    requires all != "" && negative == (all[0] == '-') && s == (if negative then all[1..] else all)
    requires Gives(Magnitude(s), ok, magnitude, rest)
    ensures var good := ok && !(rest != "" && Fractional(rest[0])) && magnitude <= MAX_SAFE;
            forall value :: value == (if negative then -(magnitude as int) else magnitude) ==> Gives(IntegerOf(all), good, value, rest)
    ensures !(ok && !(rest != "" && Fractional(rest[0])) && magnitude <= MAX_SAFE) ==> Gives(IntegerOf(all), false, 0, rest)
  {
    hide Magnitude;
  }

  lemma PrependChar(output: string, s: string, c: char, rest: string)
    requires s != "" && s[0] != '\"' && OneChar(s) == Some((c, rest))
    ensures Prepended(output, Chars(s)) == Prepended(output + [c], Chars(rest))
  {
    hide OneChar;
    if Chars(rest).Some? {
      assert output + ([c] + Chars(rest).value.0) == output + [c] + Chars(rest).value.0;
    }
  }

  lemma PrependNothing<T>(r: Read<seq<T>>)
    ensures Prepended([], r) == r
  {
    if r.Some? {
      assert [] + r.value.0 == r.value.0;
    }
  }

  lemma PrependValue(values: seq<Json>, v: Json, r: Read<seq<Json>>)
    ensures Prepended(values, Prepended([v], r)) == Prepended(values + [v], r)
  {
    if r.Some? {
      assert values + ([v] + r.value.0) == values + [v] + r.value.0;
    }
  }

  lemma SkipTwice(s: string)
    ensures Skip(Skip(s)) == Skip(s)
  {
  }

  lemma NotPrefix(s: string, word: string, i: nat)
    requires i < |word| && i <= |s| && (i < |s| ==> s[i] != word[i])
    ensures !(word <= s)
  {
  }

  lemma ArrayEmpty(s: string, u: string)
    requires s != "" && s[0] == '[' && u == Skip(s[1..]) && u != "" && u[0] == ']'
    ensures Gives(Value(s), true, Array([]), u[1..])
  {
    hide Skip;
  }

  lemma ArrayGives(s: string, u: string, ok: bool, values: seq<Json>, rest: string)
    requires s != "" && s[0] == '[' && u == Skip(s[1..]) && !(u != "" && u[0] == ']')
    requires Gives(Elements(u), ok, values, rest)
    ensures Gives(Value(s), ok, Array(values), rest)
  {
    hide Elements, Skip;
  }

  lemma ObjectEmpty(s: string, u: string)
    requires s != "" && s[0] == '{' && u == Skip(s[1..]) && u != "" && u[0] == '}'
    ensures Gives(Value(s), true, Object([]), u[1..])
  {
    hide Skip;
  }

  lemma ObjectGives(s: string, u: string, ok: bool, fields: Fields, rest: string)
    requires s != "" && s[0] == '{' && u == Skip(s[1..]) && !(u != "" && u[0] == '}')
    requires Gives(Members(u, []), ok, fields, rest)
    ensures Gives(Value(s), ok, Object(fields), rest)
  {
    hide Members, Skip;
  }

  lemma ElementsFail(s: string)
    requires Value(s).None?
    ensures Elements(s).None?
  {
  }

  lemma ElementsStep(s: string, v: Json, u: string, w: string)
    requires Value(s) == Some((v, u)) && w == Skip(u)
    ensures w == "" || (w[0] != ']' && w[0] != ',') ==> Elements(s).None?
    ensures w != "" && w[0] == ']' ==> Elements(s) == Some(([v], w[1..]))
    ensures w != "" && w[0] == ',' ==> Elements(s) == Prepended([v], Elements(Skip(w[1..])))
  {
    hide Value, Skip;
  }

  lemma MembersFail(s: string, f: Fields)
    requires Member(s).None? || HasKey(f, Member(s).value.0.key)
    ensures Members(s, f).None?
  {
    hide Member, HasKey;
  }

  lemma MembersStep(s: string, f: Fields, m: Field, u: string, w: string)
    requires Member(s) == Some((m, u)) && !HasKey(f, m.key) && w == Skip(u)
    ensures w == "" || (w[0] != '}' && w[0] != ',') ==> Members(s, f).None?
    ensures w != "" && w[0] == '}' ==> Members(s, f) == Some((Filed(f, m), w[1..]))
    ensures w != "" && w[0] == ',' ==> Members(s, f) == Members(Skip(w[1..]), Filed(f, m))
  {
    hide Member, HasKey, Filed, Skip;
  }
}
