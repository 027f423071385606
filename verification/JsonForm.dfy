/**
 * The form of the text `JSON.stringify` writes: the escape of every unit, the
 * punctuation, and that no legal JSON string is shorter (section 7 of RFC 8259).
 */
module JsonForm {
  import opened Common
  import opened CodeUnits
  import opened AppDataJson
  import opened JsonText

  /** The text is these characters. */
  ghost predicate Reads(t: JsString, s: string) { |t| == |s| && forall i | 0 <= i < |s| :: t[i] == s[i] as int }

  const DIGITS := "0123456789abcdef"

  predicate Escapes(c: Unit) { c < 32 || c == 34 || c == 92 || 0xD800 <= c < 0xE000 }

  function Digits4(c: Unit): string {
    [DIGITS[c / 4096 % 16], DIGITS[c / 256 % 16], DIGITS[c / 16 % 16], DIGITS[c % 16]]
  }

  /** What is written for a unit that stands alone. */
  lemma EscapesAre(c: Unit)
    ensures !Escapes(c) ==> Escaped([c]) == [c]
    ensures c == 8 ==> Reads(Escaped([c]), "\\b")
    ensures c == 9 ==> Reads(Escaped([c]), "\\t")
    ensures c == 10 ==> Reads(Escaped([c]), "\\n")
    ensures c == 12 ==> Reads(Escaped([c]), "\\f")
    ensures c == 13 ==> Reads(Escaped([c]), "\\r")
    ensures c == 34 ==> Reads(Escaped([c]), "\\\"")
    ensures c == 92 ==> Reads(Escaped([c]), "\\\\")
    ensures Escapes(c) && c !in {8, 9, 10, 12, 13, 34, 92} ==> Reads(Escaped([c]), "\\u" + Digits4(c))
  {
    assert Escaped([c]) == EscapedUnit(c) by { assert [c][1..] == []; }
    hide Escaped;
    if Escapes(c) && c !in {8, 9, 10, 12, 13, 34, 92} {
      LongEscapeIs(c);
      hide EscapedUnit;
    }
    hide Hex4, Digits4;
  }

  lemma LongEscapeIs(c: Unit)
    requires Escapes(c) && Short(c).None?
    ensures Reads(EscapedUnit(c), "\\u" + Digits4(c))
  {
    Hex4Is(c);
    assert EscapedUnit(c) == [BACKSLASH, 117] + Hex4(c);
    hide EscapedUnit, Hex4, Digits4, Short;
  }

  lemma Hex4Is(c: Unit)
    ensures Reads(Hex4(c), Digits4(c))
  {
    FourDigits(c);
    DigitIs(c / 4096);
    DigitIs(c / 256 % 16);
    DigitIs(c / 16 % 16);
    DigitIs(c % 16);
    hide HexDigit;
  }

  lemma DigitIs(d: nat)
    requires d < 16
    ensures HexDigit(d) == DIGITS[d] as int
  {
  }

  /** The three names no object of the data may have. */
  lemma ReservedIs(name: JsString)
    ensures Reserved(name) <==> Reads(name, "__proto__") || Reads(name, "constructor") || Reads(name, "prototype")
  {
    AsciiReads(name, "__proto__");
    AsciiReads(name, "constructor");
    AsciiReads(name, "prototype");
    hide Reads;
  }

  lemma AsciiReads(t: JsString, s: string)
    requires forall i | 0 <= i < |s| :: s[i] as int < 128
    ensures t == Ascii(s) <==> Reads(t, s)
  {
  }

  /** The words and the punctuation. */
  lemma WrittenForm()
    ensures Reads(Stringify(Array([Null, Bool(true), Bool(false)])), "[null,true,false]")
    ensures Reads(Stringify(Object([Field([97], Number([49])), Field([98], Array([]))])), "{\"a\":1,\"b\":[]}")
  {
    WrittenArray();
    WrittenObject();
    hide ItemsText, FieldsText;
    assert Stringify(Array([Null, Bool(true), Bool(false)]))
        == [91, 110, 117, 108, 108, 44, 116, 114, 117, 101, 44, 102, 97, 108, 115, 101, 93];
    assert Stringify(Object([Field([97], Number([49])), Field([98], Array([]))]))
        == [123, 34, 97, 34, 58, 49, 44, 34, 98, 34, 58, 91, 93, 125];
    hide Stringify;
  }

  lemma WrittenArray()
    ensures ItemsText([Null, Bool(true), Bool(false)])
         == [110, 117, 108, 108, 44, 116, 114, 117, 101, 44, 102, 97, 108, 115, 101]
  {
    Items3(Null, Bool(true), Bool(false));
    hide ItemsText;
  }

  lemma WrittenObject()
    ensures FieldsText([Field([97], Number([49])), Field([98], Array([]))])
         == [34, 97, 34, 58, 49, 44, 34, 98, 34, 58, 91, 93]
  {
    Fields2([97], Number([49]), [98], Array([]));
    EscapesAre(97);
    EscapesAre(98);
    NoItems();
    hide Escaped, ItemsText, FieldsText;
    assert Quoted([97]) == [34, 97, 34] && Quoted([98]) == [34, 98, 34];
    assert Stringify(Array([])) == [91, 93] && Stringify(Number([49])) == [49];
    hide Quoted, Stringify;
  }

  lemma NoItems()
    ensures ItemsText([]) == []
  {
  }

  lemma Items3(a: Value, b: Value, c: Value)
    ensures ItemsText([a, b, c]) == Stringify(a) + [COMMA] + Stringify(b) + [COMMA] + Stringify(c)
  {
    hide Stringify;
    assert [a, b, c][1..] == [b, c] && [b, c][1..] == [c];
    assert ItemsText([c]) == Stringify(c);
    assert ItemsText([b, c]) == Stringify(b) + ([COMMA] + Stringify(c));
    assert ItemsText([a, b, c]) == Stringify(a) + ([COMMA] + ItemsText([b, c]));
  }

  lemma Fields2(a: JsString, v: Value, b: JsString, w: Value)
    ensures FieldsText([Field(a, v), Field(b, w)])
         == Quoted(a) + [COLON] + Stringify(v) + [COMMA] + Quoted(b) + [COLON] + Stringify(w)
  {
    hide Stringify, Quoted;
    assert [Field(a, v), Field(b, w)][1..] == [Field(b, w)];
  }

  // ---- the shortest text ----

  /** No control character, and surrogates in pairs only. */
  predicate Legal(t: JsString) {
    if t == [] then true
    else if 0xD800 <= t[0] < 0xDC00 then |t| > 1 && 0xDC00 <= t[1] < 0xE000 && Legal(t[2..])
    else t[0] >= 32 && !(0xDC00 <= t[0] < 0xE000) && Legal(t[1..])
  }

  /** `t` is how the inside of a JSON string may stand for `s`. */
  predicate StandsFor(t: JsString, s: JsString) { Legal(t) && ReadString(t + [QUOTE]) == Some((s, [])) }

  lemma {:induction false} EscapedLegal(s: JsString)
    ensures Legal(Escaped(s))
  {
    if s == [] {
    } else if |s| > 1 && High(s[0]) && Low(s[1]) {
      EscapedLegal(s[2..]);
      assert Escaped(s)[2..] == Escaped(s[2..]);
    } else {
      EscapedLegal(s[1..]);
      UnitLegal(s[0], Escaped(s[1..]));
    }
  }

  lemma UnitLegal(c: Unit, tail: JsString)
    requires Legal(tail)
    ensures Legal(EscapedUnit(c) + tail)
  {
    FourDigits(c);
    var t := EscapedUnit(c);
    assert forall i | 0 <= i < |t| :: Plain(t[i]);
    hide EscapedUnit, Legal;
    PlainLegal(t, tail);
  }

  predicate Plain(c: Unit) { c >= 32 && !High(c) && !Low(c) }

  lemma {:induction false} PlainLegal(t: JsString, tail: JsString)
    requires (forall i | 0 <= i < |t| :: Plain(t[i])) && Legal(tail)
    ensures Legal(t + tail)
  {
    if t == [] {
      assert t + tail == tail;
    } else {
      PlainLegal(t[1..], tail);
      assert (t + tail)[1..] == t[1..] + tail;
    }
  }

  /** The text written is one of those that stand for the string, and none is shorter. */
  lemma WrittenIsShortest(s: JsString, t: JsString)
    ensures StandsFor(Escaped(s), s)
    ensures StandsFor(t, s) ==> |Escaped(s)| <= |t|
  {
    EscapedLegal(s);
    StringRoundTrip(s, []);
    hide ReadString, Escaped, Legal;
    assert Escaped(s) + [QUOTE] + [] == Escaped(s) + [QUOTE];
    if StandsFor(t, s) { NoShorter(t, s); }
  }

  lemma {:induction false} NoShorter(t: JsString, s: JsString)
    requires StandsFor(t, s)
    ensures |Escaped(s)| <= |t|
    decreases |t|
  {
    var q := t + [QUOTE];
    if t == [] || t[0] == QUOTE {
      assert s == [];
    } else {
      var (c, n) := ReadUnit(q).value;
      assert q[0] != QUOTE && s[0] == c && ReadString(q[n..]) == Some((s[1..], []));
      if n > |t| {
        assert false;
      } else {
        assert q[n..] == t[n..] + [QUOTE];
        if High(c) && t[0] != BACKSLASH {
          assert q[1] == t[1] && q[1..][0] == t[1] && ReadUnit(q[1..]) == Some((t[1], 1));
          assert q[1..][1..] == q[2..] && q[2..] == t[2..] + [QUOTE];
          assert ReadString(q[2..]) == Some((s[1..][1..], [])) && s[1] == t[1] && s[1..][1..] == s[2..];
          NoShorter(t[2..], s[2..]);
        } else {
          SuffixLegal(t, n);
          NoShorter(t[n..], s[1..]);
          UnitNoShorter(t, c, n);
          EscapedShortens(s);
        }
      }
    }
  }

  lemma EscapedShortens(s: JsString)
    requires s != []
    ensures |Escaped(s)| <= |EscapedUnit(s[0])| + |Escaped(s[1..])|
  {
    EscapedStep(s);
    if |s| > 1 && High(s[0]) && Low(s[1]) {
      EscapedStep(s[1..]);
      assert s[1..][1..] == s[2..];
    }
  }

  lemma SuffixLegal(t: JsString, n: nat)
    requires Legal(t) && 0 < n <= |t| && forall i | 0 <= i < n :: !High(t[i])
    ensures Legal(t[n..])
  {
    if n > 1 {
      SuffixLegal(t[1..], n - 1);
      assert t[1..][n - 1..] == t[n..];
    }
  }

  lemma UnitNoShorter(t: JsString, c: Unit, n: nat)
    requires t != [] && Legal(t) && n <= |t| && ReadUnit(t + [QUOTE]) == Some((c, n)) && t[0] != QUOTE
    requires t[0] == BACKSLASH || !High(t[0])
    ensures |EscapedUnit(c)| <= n
  {
    EscapedLength(c);
    hide EscapedUnit, Unit4;
    assert t[0] == (t + [QUOTE])[0];
    if t[0] == BACKSLASH {
      if n == 2 { assert Short(c).Some?; }
    } else {
      hide ReadUnit;
      assert c == t[0] && !High(c) && !Low(c) && c >= 32;
    }
  }

  lemma EscapedLength(c: Unit)
    ensures |EscapedUnit(c)| == if Short(c).Some? then 2 else if c < 32 || High(c) || Low(c) then 6 else 1
  {
  }
}
