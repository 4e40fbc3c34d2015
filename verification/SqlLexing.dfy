/** How the reader's lexer sees the pieces the builders print. */
module SqlLexing {
  import opened Base
  import opened Text
  import opened SqlText
  import opened SqlReader

  /** Text after which no identifier, literal or word before it can continue. */
  predicate Stops(rest: string) {
    rest == "" || (!IsWordChar(rest[0]) && rest[0] != '"' && rest[0] != '\'')
  }

  /** s is read as exactly the tokens ts, wherever a token may end after it. */
  ghost predicate LexesTo(s: string, ts: seq<Token>) {
    forall rest: string | Stops(rest) :: Lex(s + rest) == Prepend(ts, Lex(rest))
  }

  /** sep is read as the one token tok, whatever follows, and ends what precedes. */
  ghost predicate Separates(sep: string, tok: Token) {
    sep != "" && Stops(sep) && forall rest: string :: Lex(sep + rest) == Prepend([tok], Lex(rest))
  }

  /** As Separates, for text that must itself come after a boundary. */
  ghost predicate Leads(s: string, ts: seq<Token>) {
    forall rest: string :: Lex(s + rest) == Prepend(ts, Lex(rest))
  }

  lemma PrependTwice(a: seq<Token>, b: seq<Token>, r: Option<seq<Token>>)
    ensures Prepend(a, Prepend(b, r)) == Prepend(a + b, r)
  {
    if r.Some? { assert a + (b + r.value) == a + b + r.value; }
  }

  // ----- single tokens -----

  lemma {:induction false} ReadPlain(quote: char, s: string, rest: string)
    requires quote !in s
    requires rest == "" || rest[0] != quote
    ensures ReadQuoted(quote, s + [quote] + rest) == Some((s, rest))
  {
    var all := s + [quote] + rest;
    if s == "" {
      assert all[1..] == rest;
    } else {
      assert all[1..] == s[1..] + [quote] + rest;
      ReadPlain(quote, s[1..], rest);
      assert [s[0]] + s[1..] == s;
    }
  }

  /** Escaping is undone by the reader for every text. */
  lemma {:induction false} ReadEscaped(s: string, rest: string)
    requires rest == "" || rest[0] != '\''
    ensures ReadQuoted('\'', Escaped(s) + "'" + rest) == Some((s, rest))
  {
    var all := Escaped(s) + "'" + rest;
    if s == "" {
      assert all[1..] == rest;
    } else {
      var tail := Escaped(s[1..]) + "'" + rest;
      ReadEscaped(s[1..], rest);
      assert [s[0]] + s[1..] == s;
      if s[0] == '\'' {
        assert all == "''" + tail;
        assert all[2..] == tail;
      } else {
        assert all == [s[0]] + tail;
        assert all[1..] == tail;
      }
    }
  }

  lemma LexIdent(n: string)
    requires IsIdent(n)
    ensures LexesTo(Quoted(n), [Ident(n)])
  {
    forall rest | Stops(rest) ensures Lex(Quoted(n) + rest) == Prepend([Ident(n)], Lex(rest)) {
      assert (Quoted(n) + rest)[1..] == n + ['"'] + rest;
      ReadPlain('"', n, rest);
    }
  }

  lemma LexLiteral(t: string)
    ensures LexesTo(SqlLiteral(t), [Lit(t)])
  {
    forall rest | Stops(rest) ensures Lex(SqlLiteral(t) + rest) == Prepend([Lit(t)], Lex(rest)) {
      assert (SqlLiteral(t) + rest)[1..] == Escaped(t) + "'" + rest;
      ReadEscaped(t, rest);
    }
  }

  lemma {:induction false} WordLengthOf(w: string, rest: string)
    requires forall c | c in w :: IsWordChar(c)
    requires rest == "" || !IsWordChar(rest[0])
    ensures WordLength(w + rest) == |w|
  {
    if w == "" {
      assert w + rest == rest;
    } else {
      assert (w + rest)[1..] == w[1..] + rest;
      WordLengthOf(w[1..], rest);
    }
  }

  lemma LexWord(w: string, rest: string)
    requires w != "" && forall c | c in w :: IsWordChar(c)
    requires rest == "" || !IsWordChar(rest[0])
    ensures Lex(w + rest) == Prepend([Word(w)], Lex(rest))
  {
    WordLengthOf(w, rest);
    assert (w + rest)[0] == w[0] && w[0] in w;
    assert (w + rest)[..|w|] == w && (w + rest)[|w|..] == rest;
  }

  lemma LexSym(c: char, rest: string)
    requires IsSymbol(c)
    ensures Lex([c] + rest) == Prepend([Sym(c)], Lex(rest))
  {
    assert ([c] + rest)[1..] == rest;
  }

  lemma LexBlank(rest: string)
    ensures Lex(" " + rest) == Lex(rest)
  {
    assert (" " + rest)[1..] == rest;
  }

  /** A keyword between blanks: " AND ", " SET ", ... */
  lemma LexKeyword(w: string)
    requires w != "" && forall c | c in w :: IsWordChar(c)
    ensures Separates(" " + w + " ", Word(w))
  {
    forall rest: string ensures Lex(" " + w + " " + rest) == Prepend([Word(w)], Lex(rest)) {
      assert " " + w + " " + rest == " " + (w + (" " + rest));
      LexBlank(w + (" " + rest));
      LexWord(w, " " + rest);
      LexBlank(rest);
    }
  }

  lemma LexComma()
    ensures Separates(", ", Sym(','))
  {
    forall rest: string ensures Lex(", " + rest) == Prepend([Sym(',')], Lex(rest)) {
      assert ", " + rest == [','] + (" " + rest);
      LexSym(',', " " + rest);
      LexBlank(rest);
    }
  }

  /** A symbol with no blanks around it. */
  lemma LexBareSym(c: char)
    requires IsSymbol(c)
    ensures Separates([c], Sym(c))
  {
    forall rest: string ensures Lex([c] + rest) == Prepend([Sym(c)], Lex(rest)) {
      LexSym(c, rest);
    }
  }

  /** " = " */
  lemma LexEquals()
    ensures Separates(" = ", Sym('='))
  {
    forall rest: string ensures Lex(" = " + rest) == Prepend([Sym('=')], Lex(rest)) {
      assert " = " + rest == " " + (['='] + (" " + rest));
      LexBlank(['='] + (" " + rest));
      LexSym('=', " " + rest);
      LexBlank(rest);
    }
  }

  lemma LexNull()
    ensures LexesTo("NULL", [Word("NULL")])
  {
    forall rest | Stops(rest) ensures Lex("NULL" + rest) == Prepend([Word("NULL")], Lex(rest)) {
      LexWord("NULL", rest);
    }
  }

  // ----- composition -----

  /** Text, separator, text. */
  lemma LexJoin2(a: string, x: seq<Token>, sep: string, tok: Token, b: string, y: seq<Token>)
    requires LexesTo(a, x) && Separates(sep, tok) && LexesTo(b, y)
    ensures LexesTo(a + sep + b, x + [tok] + y)
  {
    hide Lex, Prepend;
    forall rest | Stops(rest) ensures Lex(a + sep + b + rest) == Prepend(x + [tok] + y, Lex(rest)) {
      assert a + sep + b + rest == a + (sep + (b + rest));
      assert Stops(sep + (b + rest));
      assert Lex(a + (sep + (b + rest))) == Prepend(x, Lex(sep + (b + rest)));
      assert Lex(sep + (b + rest)) == Prepend([tok], Lex(b + rest));
      PrependTwice([tok], y, Lex(rest));
      PrependTwice(x, [tok] + y, Lex(rest));
      assert x + ([tok] + y) == x + [tok] + y;
    }
  }

  /** Text that any other text may follow, then text. */
  lemma LexAfter(a: string, x: seq<Token>, b: string, y: seq<Token>)
    requires Leads(a, x) && LexesTo(b, y)
    ensures LexesTo(a + b, x + y)
  {
    hide Lex, Prepend;
    forall rest | Stops(rest) ensures Lex(a + b + rest) == Prepend(x + y, Lex(rest)) {
      assert a + b + rest == a + (b + rest);
      assert Lex(a + (b + rest)) == Prepend(x, Lex(b + rest));
      assert Lex(b + rest) == Prepend(y, Lex(rest));
      PrependTwice(x, y, Lex(rest));
    }
  }

  /** Text, then a closing symbol. */
  lemma LexClosed(a: string, x: seq<Token>, c: char)
    requires LexesTo(a, x) && IsSymbol(c)
    ensures LexesTo(a + [c], x + [Sym(c)])
  {
    hide Lex, Prepend;
    forall rest | Stops(rest) ensures Lex(a + [c] + rest) == Prepend(x + [Sym(c)], Lex(rest)) {
      assert a + [c] + rest == a + ([c] + rest);
      LexSym(c, rest);
      assert Stops([c] + rest);
      assert Lex(a + ([c] + rest)) == Prepend(x, Lex([c] + rest));
      PrependTwice(x, [Sym(c)], Lex(rest));
    }
  }

  function JoinTokens(parts: seq<seq<Token>>, tok: Token): seq<Token> {
    if parts == [] then []
    else if |parts| == 1 then parts[0]
    else parts[0] + [tok] + JoinTokens(parts[1..], tok)
  }

  lemma {:induction false} LexJoin(texts: seq<string>, parts: seq<seq<Token>>, sep: string, tok: Token)
    requires |texts| == |parts| > 0
    requires forall i | 0 <= i < |texts| :: LexesTo(texts[i], parts[i])
    requires Separates(sep, tok)
    ensures LexesTo(Join(texts, sep), JoinTokens(parts, tok))
  {
    if |texts| > 1 {
      forall i | 0 <= i < |texts[1..]| ensures LexesTo(texts[1..][i], parts[1..][i]) {
        assert texts[1..][i] == texts[i + 1] && parts[1..][i] == parts[i + 1];
      }
      LexJoin(texts[1..], parts[1..], sep, tok);
      LexJoin2(texts[0], parts[0], sep, tok, Join(texts[1..], sep), JoinTokens(parts[1..], tok));
    }
  }

  /** A whole text: nothing follows. */
  lemma LexWhole(s: string, ts: seq<Token>)
    requires LexesTo(s, ts)
    ensures Lex(s) == Some(ts)
  {
    assert s + "" == s && Stops("");
    assert ts + [] == ts;
  }
}
