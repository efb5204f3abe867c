/** The scanner and the syntax trees are inverse: a text is accepted exactly when some valid tree is written as it, and that tree is the one the scanner finds. */
module JsonUnambiguous {
  import opened Utf16
  import opened Decimal
  import opened JsonGrammar

  /** The text between i and j is r. */
  predicate Spans(t: Text, i: nat, j: nat, r: Text) {
    i <= j <= |t| && t[i..j] == r
  }

  lemma Join(t: Text, i: nat, j: nat, k: nat, a: Text, b: Text)
    requires Spans(t, i, j, a) && Spans(t, j, k, b)
    ensures Spans(t, i, k, a + b)
  {
    assert t[i..k] == t[i..j] + t[j..k];
  }

  lemma Cut(t: Text, i: nat, k: nat, a: Text, b: Text)
    requires Spans(t, i, k, a + b)
    ensures Spans(t, i, i + |a|, a) && Spans(t, i + |a|, k, b)
  {
    assert t[i..i + |a|] == (a + b)[..|a|];
    assert t[i + |a|..k] == (a + b)[|a|..];
  }

  // ---- what the scanner finds is what is written ----

  lemma WholeSound(t: Text, i: nat)
    requires i <= |t|
    ensures var r := ScanWhole(t, i);
            r.Found? ==>
              && r.value != [] && (r.value[0] == 0 ==> |r.value| == 1)
              && Spans(t, i, r.end, DigitText(r.value))
  {
    var r := ScanWhole(t, i);
    if r.Found? && t[i] == ZERO {
      assert t[i..i + 1] == DigitText([0]);
    }
  }

  lemma FractionSound(t: Text, i: nat)
    requires i <= |t|
    ensures var r := ScanFraction(t, i);
            r.Found? ==> Spans(t, i, r.end, FractionText(r.value))
  {
    var r := ScanFraction(t, i);
    if r.Found? && r.end > i {
      assert t[i..i + 1] == [DOT];
      Join(t, i, i + 1, r.end, [DOT], DigitText(r.value));
    }
  }

  lemma ExponentSound(t: Text, i: nat)
    requires i <= |t|
    ensures var r := ScanExponent(t, i);
            r.Found? ==>
              && Spans(t, i, r.end, ExponentText(r.value))
              && ValidLiteral(Literal(false, [1], [], r.value))
  {
    var r := ScanExponent(t, i);
    if r.Found? && r.end > i {
      var e := r.value;
      var s := i + 1 + |e.sign|;
      assert t[i..i + 1] == [e.mark];
      assert e.sign == [] || e.sign == [t[i + 1]];
      Join(t, i, i + 1, s, [e.mark], e.sign);
      Join(t, i, s, r.end, [e.mark] + e.sign, DigitText(e.digits));
    }
  }

  lemma NumberSound(t: Text, i: nat)
    requires i <= |t|
    ensures var r := ScanNumber(t, i);
            r.Found? ==> ValidLiteral(r.value) && Spans(t, i, r.end, LiteralText(r.value))
  {
    var r := ScanNumber(t, i);
    if r.Found? {
      var l := r.value;
      var a := if l.neg then i + 1 else i;
      var whole := ScanWhole(t, a);
      var fraction := ScanFraction(t, whole.end);
      WholeSound(t, a);
      FractionSound(t, whole.end);
      ExponentSound(t, fraction.end);
      assert Spans(t, i, a, SignText(l.neg));
      Join(t, i, a, whole.end, SignText(l.neg), DigitText(l.whole));
      Join(t, i, whole.end, fraction.end, SignText(l.neg) + DigitText(l.whole), FractionText(l.fraction));
      Join(t, i, fraction.end, r.end, SignText(l.neg) + DigitText(l.whole) + FractionText(l.fraction), ExponentText(l.exponent));
    }
  }

  lemma PieceSound(t: Text, i: nat)
    requires i <= |t|
    ensures var r := ScanPiece(t, i);
            r.Found? ==> ValidPiece(r.value) && Spans(t, i, r.end, PieceText(r.value))
  {
  }

  lemma {:induction false} PiecesSound(t: Text, i: nat)
    requires i <= |t|
    ensures var r := ScanPieces(t, i);
            r.Found? ==> ValidPieces(r.value) && Spans(t, i, r.end, PiecesText(r.value))
    decreases |t| - i
  {
    var r := ScanPieces(t, i);
    if r.Found? && !(i < |t| && t[i] == QUOTE) {
      var first := ScanPiece(t, i);
      PieceSound(t, i);
      PiecesSound(t, first.end);
      var rest := ScanPieces(t, first.end);
      Join(t, i, first.end, r.end, PieceText(first.value), PiecesText(rest.value));
      assert r.value[1..] == rest.value;
    }
  }

  lemma StringSound(t: Text, i: nat)
    requires i < |t| && t[i] == QUOTE
    ensures var r := ScanPieces(t, i + 1);
            r.Found? ==> ValidPieces(r.value) && Spans(t, i, r.end, StringText(r.value))
  {
    var r := ScanPieces(t, i + 1);
    if r.Found? {
      PiecesSound(t, i + 1);
      Join(t, i, i + 1, r.end, [QUOTE], PiecesText(r.value));
    }
  }

  lemma {:induction false} ValueSound(t: Text, i: nat)
    requires i <= |t|
    ensures var r := ScanValue(t, i);
            r.Found? ==> Valid(r.value) && Spans(t, i, r.end, SyntaxText(r.value))
    decreases |t| - i, 0
  {
    var r := ScanValue(t, i);
    if r.Found? {
      if t[i] == OPEN_ARRAY {
        ArraySound(t, i);
      } else if t[i] == OPEN_OBJECT {
        ObjectSound(t, i);
      } else if t[i] == QUOTE {
        StringSound(t, i);
      } else if t[i] == MINUS || IsDigit(t[i]) {
        NumberSound(t, i);
      }
    }
  }

  lemma {:induction false} ArraySound(t: Text, i: nat)
    requires i < |t| && t[i] == OPEN_ARRAY
    ensures var r := ScanValue(t, i);
            r.Found? ==> Valid(r.value) && Spans(t, i, r.end, SyntaxText(r.value))
    decreases |t| - i - 1, 3
  {
    var r := ScanValue(t, i);
    if r.Found? {
      var c := r.value;
      SkipsSpace(t, i + 1);
      Join(t, i, i + 1, i + 1 + |c.gap|, [OPEN_ARRAY], c.gap);
      if c.items == [] {
        Join(t, i, r.end - 1, r.end, [OPEN_ARRAY] + c.gap, [CLOSE_ARRAY]);
      } else {
        ItemsSound(t, i + 1);
        Join(t, i, i + 1, r.end, [OPEN_ARRAY] + c.gap, ItemsText(c.items));
      }
    }
  }

  lemma {:induction false} ObjectSound(t: Text, i: nat)
    requires i < |t| && t[i] == OPEN_OBJECT
    ensures var r := ScanValue(t, i);
            r.Found? ==> Valid(r.value) && Spans(t, i, r.end, SyntaxText(r.value))
    decreases |t| - i - 1, 3
  {
    var r := ScanValue(t, i);
    if r.Found? {
      var c := r.value;
      SkipsSpace(t, i + 1);
      Join(t, i, i + 1, i + 1 + |c.gap|, [OPEN_OBJECT], c.gap);
      if c.members == [] {
        Join(t, i, r.end - 1, r.end, [OPEN_OBJECT] + c.gap, [CLOSE_OBJECT]);
      } else {
        MembersSound(t, i + 1);
        Join(t, i, i + 1, r.end, [OPEN_OBJECT] + c.gap, MembersText(c.members));
      }
    }
  }

  lemma {:induction false} ItemsSound(t: Text, i: nat)
    requires i <= |t|
    ensures var r := ScanItems(t, i);
            r.Found? ==> ValidItems(r.value) && Spans(t, i, r.end, ItemsText(r.value))
    decreases |t| - i, 1
  {
    var r := ScanItems(t, i);
    if r.Found? {
      var j := Skip(t, i);
      var value := ScanValue(t, j);
      var m := Skip(t, value.end);
      var rest := ScanItemsTail(t, m);
      var item := Item(t[i..j], value.value, t[value.end..m]);
      SkipsSpace(t, i);
      SkipsSpace(t, value.end);
      ValueSound(t, j);
      ItemsTailSound(t, m);
      Join(t, i, j, value.end, item.before, SyntaxText(item.value));
      Join(t, i, value.end, m, item.before + SyntaxText(item.value), item.after);
      Join(t, i, m, r.end, ItemText(item), ItemsTail(rest.value));
      assert r.value[0] == item && r.value[1..] == rest.value;
    }
  }

  lemma {:induction false} ItemsTailSound(t: Text, i: nat)
    requires i <= |t|
    ensures var r := ScanItemsTail(t, i);
            r.Found? ==> ValidItems(r.value) && Spans(t, i, r.end, ItemsTail(r.value))
    decreases |t| - i, 2
  {
    var r := ScanItemsTail(t, i);
    if r.Found? && t[i] == COMMA {
      ItemsSound(t, i + 1);
      Join(t, i, i + 1, r.end, [COMMA], ItemsText(r.value));
    }
  }

  /** A member up to its value. */
  function HeadText(m: Member): Text {
    m.before + StringText(m.key) + m.ahead + [COLON] + m.behind
  }

  lemma JoinHead(t: Text, m: Member, i: nat, j: nat, k: nat, a: nat, b: nat)
    requires Spans(t, i, j, m.before) && Spans(t, j, k, StringText(m.key)) && Spans(t, k, a, m.ahead)
    requires Spans(t, a, a + 1, [COLON]) && Spans(t, a + 1, b, m.behind)
    ensures Spans(t, i, b, HeadText(m))
  {
    var s := StringText(m.key);
    Join(t, i, j, k, m.before, s);
    Join(t, i, k, a, m.before + s, m.ahead);
    Join(t, i, a, a + 1, m.before + s + m.ahead, [COLON]);
    Join(t, i, a + 1, b, m.before + s + m.ahead + [COLON], m.behind);
  }

  lemma KeySound(t: Text, i: nat)
    requires i <= |t|
    ensures var r := ScanKey(t, i);
            r.Found? ==>
              var m := r.value;
              && Space(m.before) && ValidPieces(m.key) && Space(m.ahead) && Space(m.behind)
              && Spans(t, i, r.end, HeadText(m))
  {
    var r := ScanKey(t, i);
    if r.Found? {
      var j := Skip(t, i);
      StringSound(t, j);
      var k := ScanPieces(t, j + 1).end;
      var a := Skip(t, k);
      SkipsSpace(t, i);
      SkipsSpace(t, k);
      SkipsSpace(t, a + 1);
      JoinHead(t, r.value, i, j, k, a, r.end);
    }
  }

  lemma {:induction false} MembersSound(t: Text, i: nat)
    requires i <= |t|
    ensures var r := ScanMembers(t, i);
            r.Found? ==> ValidMembers(r.value) && Spans(t, i, r.end, MembersText(r.value))
    decreases |t| - i, 1
  {
    var r := ScanMembers(t, i);
    if r.Found? {
      var key := ScanKey(t, i);
      var value := ScanValue(t, key.end);
      var e := Skip(t, value.end);
      var rest := ScanMembersTail(t, e);
      var m := key.value.(value := value.value, after := t[value.end..e]);
      var head := HeadText(m);
      SkipsSpace(t, value.end);
      KeySound(t, i);
      ValueSound(t, key.end);
      MembersTailSound(t, e);
      Join(t, i, key.end, value.end, head, SyntaxText(m.value));
      Join(t, i, value.end, e, head + SyntaxText(m.value), m.after);
      Join(t, i, e, r.end, MemberText(m), MembersTail(rest.value));
      assert r.value[0] == m && r.value[1..] == rest.value;
    }
  }

  lemma {:induction false} MembersTailSound(t: Text, i: nat)
    requires i <= |t|
    ensures var r := ScanMembersTail(t, i);
            r.Found? ==> ValidMembers(r.value) && Spans(t, i, r.end, MembersTail(r.value))
    decreases |t| - i, 2
  {
    var r := ScanMembersTail(t, i);
    if r.Found? && t[i] == COMMA {
      MembersSound(t, i + 1);
      Join(t, i, i + 1, r.end, [COMMA], MembersText(r.value));
    }
  }

  lemma DocumentSound(t: Text)
    ensures var r := ScanDocument(t);
            r.Found? ==> ValidDocument(r.value) && t == DocumentText(r.value)
  {
    var r := ScanDocument(t);
    if r.Found? {
      var d := r.value;
      var j := Skip(t, 0);
      var k := ScanValue(t, j).end;
      SkipsSpace(t, 0);
      SkipsSpace(t, k);
      ValueSound(t, j);
      Join(t, 0, j, k, d.before, SyntaxText(d.value));
      Join(t, 0, k, |t|, d.before + SyntaxText(d.value), d.after);
      assert t[0..|t|] == t;
    }
  }

  // ---- what is written is what the scanner finds ----

  /** Nothing at j goes on with a number that ends there. */
  predicate Ends(t: Text, j: nat) {
    j < |t| ==> !IsDigit(t[j]) && t[j] != DOT && t[j] != LOWER_E && t[j] != UPPER_E
  }

  lemma {:induction false} SkipFinds(t: Text, i: nat, j: nat)
    requires i <= j <= |t| && Space(t[i..j])
    requires j < |t| ==> !IsSpace(t[j])
    ensures Skip(t, i) == j
    decreases j - i
  {
    if i < j {
      assert t[i..j][0] == t[i];
      assert t[i + 1..j] == t[i..j][1..];
      SkipFinds(t, i + 1, j);
    }
  }

  lemma {:induction false} DigitsEndFinds(t: Text, i: nat, j: nat, ds: seq<Digit>)
    requires Spans(t, i, j, DigitText(ds))
    requires j < |t| ==> !IsDigit(t[j])
    ensures DigitsEnd(t, i) == j
    decreases j - i
  {
    if i < j {
      assert t[i..j][0] == t[i] == DigitText(ds)[0];
      assert t[i + 1..j] == DigitText(ds)[1..] == DigitText(ds[1..]);
      DigitsEndFinds(t, i + 1, j, ds[1..]);
    } else {
      assert j == i;
    }
  }

  lemma DigitTextInjective(a: seq<Digit>, b: seq<Digit>)
    requires DigitText(a) == DigitText(b)
    ensures a == b
  {
    forall k | 0 <= k < |a|
      ensures a[k] == b[k]
    {
      assert DigitText(a)[k] == DigitText(b)[k];
    }
  }

  lemma DigitsFromFinds(t: Text, i: nat, j: nat, ds: seq<Digit>)
    requires Spans(t, i, j, DigitText(ds)) && DigitsEnd(t, i) == j
    ensures DigitsFrom(t, i) == ds
  {
    DigitTextInjective(DigitsFrom(t, i), ds);
  }

  lemma WholeFinds(t: Text, i: nat, j: nat, ds: seq<Digit>)
    requires ds != [] && (ds[0] == 0 ==> |ds| == 1)
    requires Spans(t, i, j, DigitText(ds))
    requires j < |t| ==> !IsDigit(t[j])
    ensures ScanWhole(t, i) == Found(ds, j)
  {
    assert t[i] == t[i..j][0] == DigitText(ds)[0];
    if ds[0] == 0 {
      assert ds == [0];
    } else {
      DigitsEndFinds(t, i, j, ds);
      DigitsFromFinds(t, i, j, ds);
    }
  }

  lemma FractionFinds(t: Text, i: nat, j: nat, ds: seq<Digit>)
    requires Spans(t, i, j, FractionText(ds))
    requires j < |t| ==> !IsDigit(t[j]) && t[j] != DOT
    ensures ScanFraction(t, i) == Found(ds, j)
  {
    if ds != [] {
      Cut(t, i, j, [DOT], DigitText(ds));
      assert t[i] == t[i..i + 1][0];
      DigitsEndFinds(t, i + 1, j, ds);
      DigitsFromFinds(t, i + 1, j, ds);
    }
  }

  lemma ExponentFinds(t: Text, i: nat, j: nat, e: Exponent)
    requires ValidLiteral(Literal(false, [1], [], e))
    requires Spans(t, i, j, ExponentText(e))
    requires Ends(t, j)
    ensures ScanExponent(t, i) == Found(e, j)
  {
    if e.Exponent? {
      var s := i + 1 + |e.sign|;
      Cut(t, i, j, [e.mark] + e.sign, DigitText(e.digits));
      Cut(t, i, s, [e.mark], e.sign);
      assert t[i] == t[i..i + 1][0];
      assert t[s] == t[s..j][0] == DigitText(e.digits)[0];
      if e.sign != [] {
        assert t[i + 1] == t[i + 1..s][0];
      }
      DigitsEndFinds(t, s, j, e.digits);
      DigitsFromFinds(t, s, j, e.digits);
    }
  }

  lemma CutFour(t: Text, i: nat, j: nat, s: Text, w: Text, f: Text, e: Text)
    requires Spans(t, i, j, s + w + f + e)
    ensures Spans(t, i, i + |s|, s) && Spans(t, i + |s|, i + |s| + |w|, w)
    ensures Spans(t, i + |s| + |w|, i + |s| + |w| + |f|, f) && Spans(t, i + |s| + |w| + |f|, j, e)
  {
    Cut(t, i, j, s + w + f, e);
    Cut(t, i, i + |s + w + f|, s + w, f);
    Cut(t, i, i + |s + w|, s, w);
  }

  /** The parts of a number literal, each where it stands. */
  lemma CutLiteral(t: Text, i: nat, j: nat, l: Literal) returns (a: nat, b: nat, c: nat)
    requires Spans(t, i, j, LiteralText(l))
    ensures Spans(t, i, a, SignText(l.neg)) && Spans(t, a, b, DigitText(l.whole))
    ensures Spans(t, b, c, FractionText(l.fraction)) && Spans(t, c, j, ExponentText(l.exponent))
  {
    var s, w, f := SignText(l.neg), DigitText(l.whole), FractionText(l.fraction);
    a := i + |s|;
    b := a + |w|;
    c := b + |f|;
    CutFour(t, i, j, s, w, f, ExponentText(l.exponent));
  }

  /** An exponent or nothing: what follows a fraction does not go on with it. */
  lemma ExponentStart(t: Text, c: nat, j: nat, e: Exponent)
    requires ValidLiteral(Literal(false, [1], [], e))
    requires Spans(t, c, j, ExponentText(e)) && Ends(t, j)
    ensures c < |t| ==> !IsDigit(t[c]) && t[c] != DOT
  {
    if e.Exponent? {
      assert t[c] == t[c..j][0] == e.mark;
    }
  }

  lemma FractionStart(t: Text, b: nat, c: nat, ds: seq<Digit>)
    requires Spans(t, b, c, FractionText(ds))
    requires c < |t| ==> !IsDigit(t[c])
    ensures b < |t| ==> !IsDigit(t[b])
  {
    if ds != [] {
      assert t[b] == t[b..c][0] == DOT;
    }
  }

  lemma NumberStart(t: Text, i: nat, a: nat, b: nat, neg: bool, whole: seq<Digit>)
    requires whole != [] && Spans(t, i, a, SignText(neg)) && Spans(t, a, b, DigitText(whole))
    ensures IsDigit(t[a]) && (neg <==> t[i] == MINUS) && a == if neg then i + 1 else i
  {
    assert t[a] == t[a..b][0] == DigitText(whole)[0];
    assert neg ==> t[i] == t[i..a][0];
  }

  lemma NumberFinds(t: Text, i: nat, j: nat, l: Literal)
    requires ValidLiteral(l) && Spans(t, i, j, LiteralText(l)) && Ends(t, j)
    ensures ScanNumber(t, i) == Found(l, j)
    ensures t[i] == MINUS || IsDigit(t[i])
  {
    var a, b, c := CutLiteral(t, i, j, l);
    ExponentStart(t, c, j, l.exponent);
    FractionStart(t, b, c, l.fraction);
    NumberStart(t, i, a, b, l.neg, l.whole);
    WholeFinds(t, a, b, l.whole);
    FractionFinds(t, b, c, l.fraction);
    ExponentFinds(t, c, j, l.exponent);
  }

  lemma PieceFinds(t: Text, i: nat, j: nat, p: Piece)
    requires ValidPiece(p) && Spans(t, i, j, PieceText(p))
    ensures t[i] != QUOTE
    ensures ScanPiece(t, i) == Found(p, j)
  {
    var r := t[i..j];
    assert forall k :: 0 <= k < |r| ==> t[i + k] == r[k];
    match p
    case Raw(u) => assert r[0] == u;
    case Escape(l) => assert r[0] == BACKSLASH && r[1] == l; assert t[i + 1] == l;
    case Hex(a, b, c, d) =>
      assert r[0] == BACKSLASH && r[1] == LETTER_U && r[2] == a && r[3] == b && r[4] == c && r[5] == d;
      assert t[i + 1] == LETTER_U && t[i + 2] == a && t[i + 3] == b && t[i + 4] == c && t[i + 5] == d;
  }

  lemma {:induction false} PiecesFind(t: Text, i: nat, j: nat, ps: seq<Piece>)
    requires ValidPieces(ps) && Spans(t, i, j, PiecesText(ps))
    ensures ScanPieces(t, i) == Found(ps, j)
    decreases |ps|
  {
    if ps == [] {
      assert t[i] == t[i..j][0];
    } else {
      var k := i + |PieceText(ps[0])|;
      Cut(t, i, j, PieceText(ps[0]), PiecesText(ps[1..]));
      PieceFinds(t, i, k, ps[0]);
      PiecesFind(t, k, j, ps[1..]);
      assert [ps[0]] + ps[1..] == ps;
    }
  }

  lemma StringFinds(t: Text, i: nat, j: nat, ps: seq<Piece>)
    requires ValidPieces(ps) && Spans(t, i, j, StringText(ps))
    ensures i < |t| && t[i] == QUOTE
    ensures ScanPieces(t, i + 1) == Found(ps, j)
  {
    Cut(t, i, j, [QUOTE], PiecesText(ps));
    assert t[i] == t[i..i + 1][0];
    PiecesFind(t, i + 1, j, ps);
  }

  /** A value does not start with white space. */
  lemma ValueStart(c: Syntax)
    requires Valid(c)
    ensures SyntaxText(c) != [] && !IsSpace(SyntaxText(c)[0])
    ensures SyntaxText(c)[0] != CLOSE_ARRAY && SyntaxText(c)[0] != CLOSE_OBJECT
  {
    if c.Number? {
      var l := c.literal;
      var body := DigitText(l.whole) + FractionText(l.fraction) + ExponentText(l.exponent);
      assert body[0] == ZERO + l.whole[0];
      SignInFront(SignText(l.neg), DigitText(l.whole), FractionText(l.fraction), ExponentText(l.exponent));
      assert SyntaxText(c) == SignText(l.neg) + body;
    }
  }

  lemma WordFinds(t: Text, i: nat, j: nat, word: Text, c: Syntax)
    requires word != [] && Spans(t, i, j, word)
    ensures t[i] == word[0]
    ensures ScanWord(t, i, word, c) == Found(c, j)
  {
    assert t[i] == t[i..j][0];
  }

  lemma {:induction false} ValueFinds(t: Text, i: nat, j: nat, c: Syntax)
    requires Valid(c) && Spans(t, i, j, SyntaxText(c)) && Ends(t, j)
    ensures ScanValue(t, i) == Found(c, j)
    decreases c, 4
  {
    match c
    case NullWord => WordFinds(t, i, j, NULL_WORD, c);
    case BoolWord(b) => WordFinds(t, i, j, if b then TRUE_WORD else FALSE_WORD, c);
    case Number(l) =>
      ValueStart(c);
      NumberFinds(t, i, j, l);
    case String(ps) => StringFinds(t, i, j, ps);
    case Array(_, _) => ArrayFinds(t, i, j, c);
    case Object(_, _) => ObjectFinds(t, i, j, c);
  }

  lemma {:induction false} ArrayFinds(t: Text, i: nat, j: nat, c: Syntax)
    requires c.Array? && Valid(c) && Spans(t, i, j, SyntaxText(c))
    ensures ScanValue(t, i) == Found(c, j)
    decreases c, 3
  {
    var m := i + 1 + |c.gap|;
    var tail := if c.items == [] then [CLOSE_ARRAY] else ItemsText(c.items);
    Cut(t, i, j, [OPEN_ARRAY] + c.gap, tail);
    Cut(t, i, m, [OPEN_ARRAY], c.gap);
    assert t[i] == t[i..i + 1][0];
    if c.items == [] {
      assert t[m] == t[m..j][0];
      SkipFinds(t, i + 1, m);
    } else {
      ItemsFind(t, i + 1, j, c.items);
      ItemsStart(t, i + 1, j, c.items);
    }
  }

  lemma {:induction false} ObjectFinds(t: Text, i: nat, j: nat, c: Syntax)
    requires c.Object? && Valid(c) && Spans(t, i, j, SyntaxText(c))
    ensures ScanValue(t, i) == Found(c, j)
    decreases c, 3
  {
    var m := i + 1 + |c.gap|;
    var tail := if c.members == [] then [CLOSE_OBJECT] else MembersText(c.members);
    Cut(t, i, j, [OPEN_OBJECT] + c.gap, tail);
    Cut(t, i, m, [OPEN_OBJECT], c.gap);
    assert t[i] == t[i..i + 1][0];
    if c.members == [] {
      assert t[m] == t[m..j][0];
      SkipFinds(t, i + 1, m);
    } else {
      MembersFind(t, i + 1, j, c.members);
      MembersStart(t, i + 1, j, c.members);
    }
  }

  lemma CutItem(t: Text, i: nat, j: nat, items: seq<Item>) returns (a: nat, b: nat, m: nat)
    requires items != [] && Spans(t, i, j, ItemsText(items))
    ensures Spans(t, i, a, items[0].before) && Spans(t, a, b, SyntaxText(items[0].value))
    ensures Spans(t, b, m, items[0].after) && Spans(t, m, j, ItemsTail(items[1..]))
  {
    var item := items[0];
    a := i + |item.before|;
    b := a + |SyntaxText(item.value)|;
    m := b + |item.after|;
    Cut(t, i, j, ItemText(item), ItemsTail(items[1..]));
    Cut(t, i, m, item.before + SyntaxText(item.value), item.after);
    Cut(t, i, b, item.before, SyntaxText(item.value));
  }

  lemma ItemsStart(t: Text, i: nat, j: nat, items: seq<Item>)
    requires items != [] && ValidItems(items) && Spans(t, i, j, ItemsText(items))
    ensures Skip(t, i) < |t| && t[Skip(t, i)] != CLOSE_ARRAY
  {
    var a, b, m := CutItem(t, i, j, items);
    ValueStart(items[0].value);
    assert t[a] == t[a..b][0];
    SkipFinds(t, i, a);
  }

  /** Space and then a separator: nothing that goes on with a number. */
  lemma SpaceEnds(t: Text, b: nat, m: nat, gap: Text)
    requires Spans(t, b, m, gap) && Space(gap)
    requires m < |t| && t[m] in {COMMA, CLOSE_ARRAY, CLOSE_OBJECT}
    ensures Ends(t, b)
    ensures Skip(t, b) == m
  {
    SkipFinds(t, b, m);
    if b < m {
      assert t[b] == t[b..m][0];
    }
  }

  lemma {:induction false} ItemsFind(t: Text, i: nat, j: nat, items: seq<Item>)
    requires items != [] && ValidItems(items) && Spans(t, i, j, ItemsText(items))
    ensures ScanItems(t, i) == Found(items, j)
    decreases items, 1
  {
    var item := items[0];
    var a, b, m := CutItem(t, i, j, items);
    ValueStart(item.value);
    assert t[a] == t[a..b][0];
    SkipFinds(t, i, a);
    assert t[m] == t[m..j][0];
    SpaceEnds(t, b, m, item.after);
    ValueFinds(t, a, b, item.value);
    ItemsTailFinds(t, m, j, items[1..]);
    assert [item] + items[1..] == items;
  }

  lemma {:induction false} ItemsTailFinds(t: Text, i: nat, j: nat, items: seq<Item>)
    requires ValidItems(items) && Spans(t, i, j, ItemsTail(items))
    ensures ScanItemsTail(t, i) == Found(items, j)
    decreases items, 2
  {
    assert t[i] == t[i..j][0];
    if items != [] {
      Cut(t, i, j, [COMMA], ItemsText(items));
      ItemsFind(t, i + 1, j, items);
    }
  }

  lemma CutMember(t: Text, i: nat, j: nat, members: seq<Member>) returns (h: nat, b: nat, m: nat)
    requires members != [] && Spans(t, i, j, MembersText(members))
    ensures Spans(t, i, h, HeadText(members[0])) && Spans(t, h, b, SyntaxText(members[0].value))
    ensures Spans(t, b, m, members[0].after) && Spans(t, m, j, MembersTail(members[1..]))
  {
    var member := members[0];
    h := i + |HeadText(member)|;
    b := h + |SyntaxText(member.value)|;
    m := b + |member.after|;
    Cut(t, i, j, MemberText(member), MembersTail(members[1..]));
    Cut(t, i, m, HeadText(member) + SyntaxText(member.value), member.after);
    Cut(t, i, b, HeadText(member), SyntaxText(member.value));
  }

  lemma CutHead(t: Text, i: nat, h: nat, m: Member) returns (j: nat, k: nat, a: nat)
    requires Spans(t, i, h, HeadText(m))
    ensures Spans(t, i, j, m.before) && Spans(t, j, k, StringText(m.key)) && Spans(t, k, a, m.ahead)
    ensures Spans(t, a, a + 1, [COLON]) && Spans(t, a + 1, h, m.behind)
  {
    var s := StringText(m.key);
    j := i + |m.before|;
    k := j + |s|;
    a := k + |m.ahead|;
    Cut(t, i, h, m.before + s + m.ahead + [COLON], m.behind);
    Cut(t, i, a + 1, m.before + s + m.ahead, [COLON]);
    Cut(t, i, a, m.before + s, m.ahead);
    Cut(t, i, k, m.before, s);
  }

  /** The parts of a key where the scanner looks for them. */
  lemma KeyScans(t: Text, i: nat, j: nat, k: nat, a: nat, h: nat, m: Member)
    requires Spans(t, i, j, m.before) && Skip(t, i) == j < |t| && t[j] == QUOTE
    requires ScanPieces(t, j + 1) == Found(m.key, k)
    requires Spans(t, k, a, m.ahead) && Skip(t, k) == a < |t| && t[a] == COLON
    requires Spans(t, a + 1, h, m.behind) && Skip(t, a + 1) == h
    ensures ScanKey(t, i) == Found(m.(value := NullWord, after := []), h)
  {
  }

  lemma KeyFinds(t: Text, i: nat, h: nat, m: Member)
    requires Space(m.before) && ValidPieces(m.key) && Space(m.ahead) && Space(m.behind)
    requires Spans(t, i, h, HeadText(m))
    requires h < |t| ==> !IsSpace(t[h])
    ensures ScanKey(t, i) == Found(m.(value := NullWord, after := []), h)
    ensures Skip(t, i) < |t| && t[Skip(t, i)] == QUOTE
  {
    var j, k, a := CutHead(t, i, h, m);
    StringFinds(t, j, k, m.key);
    SkipFinds(t, i, j);
    assert t[a] == t[a..a + 1][0];
    SkipFinds(t, k, a);
    SkipFinds(t, a + 1, h);
    KeyScans(t, i, j, k, a, h, m);
  }

  lemma MembersStart(t: Text, i: nat, j: nat, members: seq<Member>)
    requires members != [] && ValidMembers(members) && Spans(t, i, j, MembersText(members))
    ensures Skip(t, i) < |t| && t[Skip(t, i)] != CLOSE_OBJECT
  {
    var h, b, m := CutMember(t, i, j, members);
    ValueStart(members[0].value);
    assert t[h] == t[h..b][0];
    KeyFinds(t, i, h, members[0]);
  }

  /** A member and what follows it, where the scanner looks for them. */
  lemma MembersScan(t: Text, i: nat, h: nat, b: nat, m: nat, j: nat, members: seq<Member>)
    requires members != [] && i <= |t|
    requires ScanKey(t, i) == Found(members[0].(value := NullWord, after := []), h)
    requires ScanValue(t, h) == Found(members[0].value, b)
    requires Skip(t, b) == m && t[b..m] == members[0].after
    requires ScanMembersTail(t, m) == Found(members[1..], j)
    ensures ScanMembers(t, i) == Found(members, j)
  {
    assert [members[0]] + members[1..] == members;
  }

  lemma {:induction false} MembersFind(t: Text, i: nat, j: nat, members: seq<Member>)
    requires members != [] && ValidMembers(members) && Spans(t, i, j, MembersText(members))
    ensures ScanMembers(t, i) == Found(members, j)
    decreases members, 1
  {
    var member := members[0];
    var h, b, m := CutMember(t, i, j, members);
    ValueStart(member.value);
    assert t[h] == t[h..b][0];
    KeyFinds(t, i, h, member);
    assert t[m] == t[m..j][0];
    SpaceEnds(t, b, m, member.after);
    ValueFinds(t, h, b, member.value);
    MembersTailFinds(t, m, j, members[1..]);
    MembersScan(t, i, h, b, m, j, members);
  }

  lemma {:induction false} MembersTailFinds(t: Text, i: nat, j: nat, members: seq<Member>)
    requires ValidMembers(members) && Spans(t, i, j, MembersTail(members))
    ensures ScanMembersTail(t, i) == Found(members, j)
    decreases members, 2
  {
    assert t[i] == t[i..j][0];
    if members != [] {
      Cut(t, i, j, [COMMA], MembersText(members));
      MembersFind(t, i + 1, j, members);
    }
  }

  lemma DocumentFinds(d: Document)
    requires ValidDocument(d)
    ensures ScanDocument(DocumentText(d)) == Found(d, |DocumentText(d)|)
  {
    var t := DocumentText(d);
    var j := |d.before|;
    var k := j + |SyntaxText(d.value)|;
    assert Spans(t, 0, |t|, t);
    Cut(t, 0, |t|, d.before + SyntaxText(d.value), d.after);
    Cut(t, 0, k, d.before, SyntaxText(d.value));
    ValueStart(d.value);
    assert t[j] == t[j..k][0];
    SkipFinds(t, 0, j);
    SkipFinds(t, k, |t|);
    assert k < |t| ==> t[k] == t[k..|t|][0];
    ValueFinds(t, j, k, d.value);
    assert t[0..j] == t[..j];
  }

  /** The scanner accepts exactly the texts of the grammar, and finds the one tree each of them is written from. */
  lemma ScanIsTheGrammar(t: Text, d: Document)
    ensures ValidDocument(d) && t == DocumentText(d) <==> ScanDocument(t) == Found(d, |t|)
  {
    DocumentSound(t);
    if ValidDocument(d) && t == DocumentText(d) {
      DocumentFinds(d);
    }
  }

  /** No text is written from two trees. */
  lemma GrammarIsUnambiguous(d: Document, e: Document)
    requires ValidDocument(d) && ValidDocument(e)
    requires DocumentText(d) == DocumentText(e)
    ensures d == e
  {
    DocumentFinds(d);
    DocumentFinds(e);
  }
}
