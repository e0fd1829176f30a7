/**
 * Literal substring search (src/lib/search.ts) against LIKE as PostgreSQL defines it (manual, section 9.7.1):
 * `%` matches any text, `_` any one character, a backslash makes the next character literal.
 */
module SearchLike {
  import opened Sequences
  import opened Wrappers

  predicate IsSpecial(c: char) {
    c == '%' || c == '_' || c == '\\'
  }

  /** `input.replace(/[%_\\]/g, '\\$&')` */
  function EscapeLike(input: string): string {
    if |input| == 0 then ""
    else EscapeChar(input[0]) + EscapeLike(input[1..])
  }

  function EscapeChar(c: char): string {
    if IsSpecial(c) then ['\\', c] else [c]
  }

  datatype Token = Literal(c: char) | AnyText | AnyChar

  /** The meaning of a pattern; a backslash with nothing after it is an error. */
  function Tokens(pattern: string): Option<seq<Token>> {
    if |pattern| == 0 then Some([])
    else if pattern[0] == '\\' then
      if |pattern| == 1 then None
      else match Tokens(pattern[2..])
        case None => None
        case Some(rest) => Some([Literal(pattern[1])] + rest)
    else match Tokens(pattern[1..])
      case None => None
      case Some(rest) =>
        Some([if pattern[0] == '%' then AnyText else if pattern[0] == '_' then AnyChar else Literal(pattern[0])] + rest)
  }

  predicate Matches(tokens: seq<Token>, text: string)
    decreases |tokens|, |text|
  {
    if |tokens| == 0 then |text| == 0
    else match tokens[0]
      case Literal(c) => |text| > 0 && text[0] == c && Matches(tokens[1..], text[1..])
      case AnyChar => |text| > 0 && Matches(tokens[1..], text[1..])
      case AnyText => Matches(tokens[1..], text) || (|text| > 0 && Matches(tokens, text[1..]))
  }

  /** `text LIKE pattern`; false stands for a pattern that is refused as well. */
  predicate Like(text: string, pattern: string) {
    Tokens(pattern).Some? && Matches(Tokens(pattern).value, text)
  }

  function Literals(s: string): seq<Token> {
    if |s| == 0 then [] else [Literal(s[0])] + Literals(s[1..])
  }

  lemma {:induction false} EscapedThen(s: string, rest: string)
    requires Tokens(rest).Some?
    ensures Tokens(EscapeLike(s) + rest) == Some(Literals(s) + Tokens(rest).value)
  {
    if |s| == 0 {
      assert EscapeLike(s) + rest == rest;
      assert Literals(s) + Tokens(rest).value == Tokens(rest).value;
    } else {
      EscapedThen(s[1..], rest);
      AppendThree(EscapeChar(s[0]), EscapeLike(s[1..]), rest);
      AppendThree([Literal(s[0])], Literals(s[1..]), Tokens(rest).value);
    }
  }

  lemma {:induction false} LiteralsThen(s: string, more: seq<Token>, text: string)
    ensures Matches(Literals(s) + more, text) <==> s <= text && Matches(more, text[|s|..])
  {
    if |s| == 0 {
      assert Literals(s) + more == more;
      assert text[0..] == text;
    } else {
      var tokens := Literals(s) + more;
      assert tokens[0] == Literal(s[0]) && tokens[1..] == Literals(s[1..]) + more;
      if |text| > 0 {
        LiteralsThen(s[1..], more, text[1..]);
        assert s == [s[0]] + s[1..] && text == [text[0]] + text[1..];
        if s[0] == text[0] && s[1..] <= text[1..] {
          assert text[1..][|s| - 1..] == text[|s|..];
        }
      }
    }
  }

  lemma {:induction false} AnyTextMatches(more: seq<Token>, text: string)
    ensures Matches([AnyText] + more, text) <==> exists i :: 0 <= i <= |text| && Matches(more, text[i..])
    decreases |text|
  {
    var tokens := [AnyText] + more;
    assert tokens[1..] == more;
    assert text[0..] == text;
    if |text| > 0 {
      AnyTextMatches(more, text[1..]);
      forall i | 0 <= i <= |text[1..]| ensures text[1..][i..] == text[i + 1..] {}
      if i :| 0 <= i <= |text| && Matches(more, text[i..]) {
        if i > 0 {
          assert text[1..][i - 1..] == text[i..];
        }
      }
      if Matches(tokens, text[1..]) {
        var i :| 0 <= i <= |text[1..]| && Matches(more, text[1..][i..]);
        assert text[1..][i..] == text[i + 1..];
      }
    }
  }

  lemma EscapedTokens(s: string)
    ensures Tokens(EscapeLike(s)) == Some(Literals(s))
  {
    EscapedThen(s, "");
    assert EscapeLike(s) + "" == EscapeLike(s);
    assert Literals(s) + [] == Literals(s);
  }

  /** Any input, escaped, is a valid pattern and matches itself and nothing else. */
  lemma EscapedMatchesOnlyItself(s: string, text: string)
    ensures Tokens(EscapeLike(s)).Some?
    ensures Like(text, EscapeLike(s)) <==> text == s
  {
    EscapedTokens(s);
    LiteralsThen(s, [], text);
    assert Literals(s) + [] == Literals(s);
  }

  ghost predicate Contains(text: string, s: string) {
    exists i :: 0 <= i <= |text| && s <= text[i..]
  }

  /** Between percent signs it matches exactly the texts that contain the input. */
  lemma EscapedFindsSubstring(s: string, text: string)
    ensures Like(text, "%" + EscapeLike(s) + "%") <==> Contains(text, s)
  {
    var pattern := "%" + EscapeLike(s) + "%";
    assert Tokens("%") == Some([AnyText]) by {
      assert "%"[1..] == "" && Tokens("%"[1..]) == Some([]);
      assert [AnyText] + [] == [AnyText];
    }
    EscapedThen(s, "%");
    assert pattern[1..] == EscapeLike(s) + "%";
    var inner := Literals(s) + [AnyText];
    assert Tokens(pattern) == Some([AnyText] + inner);
    AnyTextMatches(inner, text);
    forall i | 0 <= i <= |text|
      ensures Matches(inner, text[i..]) <==> s <= text[i..]
    {
      LiteralsThen(s, [AnyText], text[i..]);
      if s <= text[i..] {
        var rest := text[i..][|s|..];
        AnyTextMatches([], rest);
        assert [AnyText] + [] == [AnyText];
        assert Matches([], rest[|rest|..]);
      }
    }
  }
}
