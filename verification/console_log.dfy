/** `consoleLog(_:to:)`, shared by both `WindowAIHelper` variants: the text
    has every line feed replaced by the two characters `\n` and is spliced
    between `console.log("` and `");`, and the page evaluates the result.

    `LoggedText` reads such a script back the way a JavaScript engine reads
    a double-quoted string literal, so the module can say which texts reach
    the console intact. */
module ConsoleLog {
  import opened Wrappers

  const LF: char := '\n'
  const CR: char := '\r'
  const Quote: char := '"'
  const Backslash: char := '\\'

  const ScriptPrefix := "console.log(\""
  const ScriptSuffix := "\");"

  predicate NoLineFeed(s: string) {
    forall i :: 0 <= i < |s| ==> s[i] != LF
  }

  function CountLineFeeds(s: string): nat {
    if s == [] then 0 else (if s[0] == LF then 1 else 0) + CountLineFeeds(s[1..])
  }

  // ------------------------------------------------------ as written

  function EscapeLineFeed(c: char): string {
    if c == LF then [Backslash, 'n'] else [c]
  }

  /** `replacingOccurrences(of: "\n", with: "\\n")`. */
  function EscapeNewlines(s: string): (r: string)
    ensures NoLineFeed(r)
    ensures NoLineFeed(s) ==> r == s
    ensures |r| == |s| + CountLineFeeds(s)
  {
    if s == [] then [] else EscapeLineFeed(s[0]) + EscapeNewlines(s[1..])
  }

  /** Escaping works character by character, so it distributes over
      concatenation. */
  lemma {:induction false} EscapeNewlinesAppend(a: string, b: string)
    ensures EscapeNewlines(a + b) == EscapeNewlines(a) + EscapeNewlines(b)
    decreases |a|
  {
    if a == [] {
      assert a + b == b;
    } else {
      assert (a + b)[0] == a[0];
      assert (a + b)[1..] == a[1..] + b;
      EscapeNewlinesAppend(a[1..], b);
      var head := EscapeLineFeed(a[0]);
      assert EscapeNewlines(a + b) == head + EscapeNewlines(a[1..] + b);
      assert head + (EscapeNewlines(a[1..]) + EscapeNewlines(b))
             == (head + EscapeNewlines(a[1..])) + EscapeNewlines(b);
    }
  }

  /** The script `consoleLog` evaluates. */
  function Script(text: string): (js: string)
    ensures |js| == |ScriptPrefix| + |EscapeNewlines(text)| + |ScriptSuffix|
    ensures js[..|ScriptPrefix|] == "console.log(\""
    ensures js[|ScriptPrefix|..|js| - |ScriptSuffix|] == EscapeNewlines(text)
    ensures js[|js| - |ScriptSuffix|..] == "\");"
  {
    ScriptPrefix + EscapeNewlines(text) + ScriptSuffix
  }

  // ------------------------------------- reading a string literal back

  /** One escape sequence after a backslash: the characters it stands for,
      or `None` when the character after the backslash starts an escape the
      reader does not model (`\x`, `\u`, digits) or the literal ends. */
  function SingleEscape(c: char): Option<string> {
    if c == 'n' then Some([LF])
    else if c == 'r' then Some([CR])
    else if c == 't' then Some(['\t'])
    else if c == 'b' then Some([8 as char])
    else if c == 'f' then Some([12 as char])
    else if c == 'v' then Some([11 as char])
    else if c == 'x' || c == 'u' || ('0' <= c <= '9') then None
    else if c == LF || c == CR || c as int == 0x2028 || c as int == 0x2029 then Some([])
    else Some([c])
  }

  /** The body of a double-quoted JavaScript string literal up to its
      closing quote: the text it denotes and what follows the quote. A raw
      line feed or carriage return inside the literal is a syntax error. A
      backslash before a line terminator is a line continuation. */
  function ReadLiteral(s: string): (r: Option<(string, string)>)
    ensures r.Some? ==> |r.value.1| < |s|
    decreases |s|
  {
    if s == [] then None
    else if s[0] == Quote then Some(([], s[1..]))
    else if s[0] == LF || s[0] == CR then None
    else if s[0] == Backslash then
      if |s| < 2 then None
      else
        var skip := if s[1] == CR && |s| > 2 && s[2] == LF then 3 else 2;
        var denoted :- SingleEscape(s[1]);
        var tail :- ReadLiteral(s[skip..]);
        Some((denoted + tail.0, tail.1))
    else
      var tail :- ReadLiteral(s[1..]);
      Some(([s[0]] + tail.0, tail.1))
  }

  /** What follows the literal is the rest of the text, unchanged. */
  lemma {:induction false} ReadLiteralLeavesSuffix(s: string)
    ensures ReadLiteral(s).Some? ==> ReadLiteral(s).value.1 == s[|s| - |ReadLiteral(s).value.1|..]
    decreases |s|
  {
    if s != [] && s[0] != Quote && s[0] != LF && s[0] != CR {
      if s[0] == Backslash {
        if |s| >= 2 {
          var skip := if s[1] == CR && |s| > 2 && s[2] == LF then 3 else 2;
          ReadLiteralLeavesSuffix(s[skip..]);
        }
      } else {
        ReadLiteralLeavesSuffix(s[1..]);
      }
    }
  }

  /** A character that needs no escape stands for itself. */
  lemma ReadPlainChar(c: char, tail: string)
    requires c != Quote && c != LF && c != CR && c != Backslash
    ensures ReadLiteral([c] + tail) ==
              if ReadLiteral(tail).Some? then Some(([c] + ReadLiteral(tail).value.0, ReadLiteral(tail).value.1))
              else None
  {
  }

  /** A two-character escape stands for what `SingleEscape` says. */
  lemma ReadEscapePair(e: char, tail: string)
    requires e != CR && SingleEscape(e).Some?
    ensures ReadLiteral([Backslash, e] + tail) ==
              if ReadLiteral(tail).Some? then
                Some((SingleEscape(e).value + ReadLiteral(tail).value.0, ReadLiteral(tail).value.1))
              else None
  {
  }

  /** What `console.log` prints when the page evaluates `js`, for scripts of
      the shape `console.log("…");`; `None` when `js` is not a single such
      call. `None` covers a syntax error, but also a literal that closes
      early and leaves text the page runs as code, which may log something
      else. */
  function LoggedText(js: string): (r: Option<string>)
    ensures r.Some? ==>
              && |js| >= |ScriptPrefix| + 3
              && js[..|ScriptPrefix|] == ScriptPrefix
              && js[|js| - 2..] == ");"
  {
    if |js| < |ScriptPrefix| || js[..|ScriptPrefix|] != ScriptPrefix then None
    else
      ReadLiteralLeavesSuffix(js[|ScriptPrefix|..]);
      var lit :- ReadLiteral(js[|ScriptPrefix|..]);
      if lit.1 == ");" then Some(lit.0) else None
  }

  /** A script of the shape `console.log("` + body + `");` logs what the
      literal reader makes of the body, provided the literal ends exactly
      before the closing `);`. */
  lemma LoggedTextOfScript(body: string)
    ensures LoggedText(ScriptPrefix + body + ScriptSuffix)
            == var lit := ReadLiteral(body + ScriptSuffix);
               if lit.Some? && lit.value.1 == ");" then Some(lit.value.0) else None
  {
    var js := ScriptPrefix + body + ScriptSuffix;
    assert js[..|ScriptPrefix|] == ScriptPrefix;
    assert js[|ScriptPrefix|..] == body + ScriptSuffix;
  }

  /** Texts free of quotes, backslashes and carriage returns: the escaping
      as written is enough for these. */
  predicate PlainText(s: string) {
    forall i :: 0 <= i < |s| ==> s[i] != Quote && s[i] != Backslash && s[i] != CR
  }

  lemma HeadTailAppend(t: string, d: string)
    requires t != []
    ensures [t[0]] + (t[1..] + d) == t + d
  {
    assert [t[0]] + t[1..] == t;
  }

  /** One plain character, escaped as written, reads back as itself. */
  lemma ReadNewlineEscapedChar(c: char, rest: string, denoted: string, unread: string)
    requires c != Quote && c != Backslash && c != CR
    requires ReadLiteral(rest) == Some((denoted, unread))
    ensures ReadLiteral(EscapeLineFeed(c) + rest) == Some(([c] + denoted, unread))
  {
    if c == LF {
      ReadEscapePair('n', rest);
    } else {
      ReadPlainChar(c, rest);
    }
  }

  /** The rest of a plain text is plain, and its first character needs no
      escape beyond the line feed's. */
  lemma PlainTail(t: string)
    requires PlainText(t) && t != []
    ensures PlainText(t[1..])
    ensures t[0] != Quote && t[0] != Backslash && t[0] != CR
  {
    forall i | 0 <= i < |t[1..]| ensures t[1..][i] != Quote && t[1..][i] != Backslash && t[1..][i] != CR {
      assert t[1..][i] == t[i + 1];
    }
  }

  /** Escaping peels off the first character. */
  lemma EscapeFirst(t: string, tail: string)
    requires t != []
    ensures EscapeNewlines(t) + tail == EscapeLineFeed(t[0]) + (EscapeNewlines(t[1..]) + tail)
  {
  }

  /** A plain text, escaped as written, reads back as itself in front of
      whatever the rest of the literal reads as. */
  lemma {:induction false} ReadEscapedPlain(t: string, tail: string, denoted: string, unread: string)
    requires PlainText(t)
    requires ReadLiteral(tail) == Some((denoted, unread))
    ensures ReadLiteral(EscapeNewlines(t) + tail) == Some((t + denoted, unread))
    decreases |t|
  {
    if t == [] {
      assert EscapeNewlines(t) + tail == tail;
      assert t + denoted == denoted;
    } else {
      PlainTail(t);
      var rest := EscapeNewlines(t[1..]) + tail;
      ReadEscapedPlain(t[1..], tail, denoted, unread);
      EscapeFirst(t, tail);
      ReadNewlineEscapedChar(t[0], rest, t[1..] + denoted, unread);
      HeadTailAppend(t, denoted);
    }
  }

  /** The closing quote ends the literal and leaves the rest unread. */
  lemma ReadQuote(rest: string)
    ensures ReadLiteral([Quote] + rest) == Some(([], rest))
  {
    assert ([Quote] + rest)[1..] == rest;
  }

  /** The as-written escaping delivers a text to the console unchanged when
      it holds no quote, backslash or carriage return; line feeds survive. */
  lemma ScriptLogsPlainText(t: string)
    requires PlainText(t)
    ensures LoggedText(Script(t)) == Some(t)
  {
    ReadQuote(");");
    ReadEscapedPlain(t, ScriptSuffix, [], ");");
    assert t + [] == t;
    LoggedTextOfScript(EscapeNewlines(t));
  }

  /** Escaping a text cut in three pieces, followed by `tail`. */
  lemma EscapeAround(a: string, m: string, b: string, tail: string)
    ensures EscapeNewlines(a + m + b) + tail
            == EscapeNewlines(a) + (EscapeNewlines(m) + (EscapeNewlines(b) + tail))
  {
    var ea, em, eb := EscapeNewlines(a), EscapeNewlines(m), EscapeNewlines(b);
    assert EscapeNewlines(a + m + b) == ea + (em + eb) by {
      assert a + m + b == a + (m + b);
      EscapeNewlinesAppend(a, m + b);
      EscapeNewlinesAppend(m, b);
    }
    Regroup(ea, em, eb, tail);
  }

  lemma Regroup(x: string, y: string, z: string, w: string)
    ensures (x + (y + z)) + w == x + (y + (z + w))
  {
  }

  /** A double quote that comes before any backslash or carriage return
      closes the literal early, so the text is not logged as itself: the
      page gets a syntax error (the text `"` alone), or runs the rest of the
      text as code (the text `a", "b` logs `a b`). */
  lemma ScriptBreaksOnQuote(a: string, b: string)
    requires PlainText(a)
    ensures LoggedText(Script(a + [Quote] + b)) == None
  {
    var unread := EscapeNewlines(b) + ScriptSuffix;
    assert EscapeNewlines(a + [Quote] + b) + ScriptSuffix == EscapeNewlines(a) + ([Quote] + unread) by {
      EscapeAround(a, [Quote], b, ScriptSuffix);
      assert EscapeNewlines([Quote]) == [Quote];
    }
    assert ReadLiteral(EscapeNewlines(a) + ([Quote] + unread)) == Some((a + [], unread)) by {
      ReadQuote(unread);
      ReadEscapedPlain(a, [Quote] + unread, [], unread);
    }
    assert unread != ");" by {
      assert |unread| >= 3;
    }
    LoggedTextOfScript(EscapeNewlines(a + [Quote] + b));
  }

  /** The script for `t` logs `logged` when its escaped text reads as a
      literal denoting `logged` that ends right before `);`. */
  lemma ScriptLogs(t: string, logged: string)
    requires ReadLiteral(EscapeNewlines(t) + ScriptSuffix) == Some((logged, ");"))
    ensures LoggedText(Script(t)) == Some(logged)
  {
    LoggedTextOfScript(EscapeNewlines(t));
  }

  /** A backslash and `n` in front of a plain text's script ending read as a
      line feed followed by the text. */
  lemma ReadMisreadPair(b: string)
    requires PlainText(b)
    ensures ReadLiteral([Backslash, 'n'] + (EscapeNewlines(b) + ScriptSuffix)) == Some(([LF] + b, ");"))
  {
    var unread := EscapeNewlines(b) + ScriptSuffix;
    assert ReadLiteral(unread) == Some((b, ");")) by {
      ReadQuote(");");
      ReadEscapedPlain(b, ScriptSuffix, [], ");");
      assert b + [] == b;
    }
    ReadEscapePair('n', unread);
    assert SingleEscape('n').value == [LF];
  }

  /** A backslash is not escaped, so wherever a backslash followed by `n`
      stands between plain texts, the console shows a line feed instead. */
  lemma ScriptMisreadsBackslash(a: string, b: string)
    requires PlainText(a) && PlainText(b)
    ensures LoggedText(Script(a + [Backslash, 'n'] + b)) == Some(a + [LF] + b)
    ensures a + [LF] + b != a + [Backslash, 'n'] + b
  {
    var pair := [Backslash, 'n'];
    var unread := EscapeNewlines(b) + ScriptSuffix;
    assert EscapeNewlines(a + pair + b) + ScriptSuffix == EscapeNewlines(a) + (pair + unread) by {
      EscapeAround(a, pair, b, ScriptSuffix);
      assert EscapeNewlines(pair) == pair by {
        assert pair[1..][1..] == [];
      }
    }
    ReadMisreadPair(b);
    ReadEscapedPlain(a, pair + unread, [LF] + b, ");");
    assert a + ([LF] + b) == a + [LF] + b;
    ScriptLogs(a + pair + b, a + [LF] + b);
    assert |a + [LF] + b| != |a + pair + b|;
  }

  // ------------------------------------------------------- corrected

  /** The escape for one character: backslash, quote, line feed and
      carriage return get a backslash form, everything else stands as is. */
  function EscapeChar(c: char): string {
    if c == LF then [Backslash, 'n']
    else if c == CR then [Backslash, 'r']
    else if c == Quote then [Backslash, Quote]
    else if c == Backslash then [Backslash, Backslash]
    else [c]
  }

  /** Escapes every character a double-quoted literal cannot hold as is. */
  function EscapeForLiteral(s: string): (r: string)
    ensures NoLineFeed(r)
    ensures PlainText(s) ==> r == EscapeNewlines(s)
  {
    if s == [] then [] else EscapeChar(s[0]) + EscapeForLiteral(s[1..])
  }

  function SafeScript(text: string): string {
    ScriptPrefix + EscapeForLiteral(text) + ScriptSuffix
  }

  /** Reading an escaped character gives back the character. */
  lemma ReadEscapedChar(c: char, tail: string)
    ensures ReadLiteral(EscapeChar(c) + tail) ==
              if ReadLiteral(tail).Some? then Some(([c] + ReadLiteral(tail).value.0, ReadLiteral(tail).value.1))
              else None
  {
    if c == LF {
      ReadEscapePair('n', tail);
    } else if c == CR {
      ReadEscapePair('r', tail);
    } else if c == Quote || c == Backslash {
      ReadEscapePair(c, tail);
    } else {
      ReadPlainChar(c, tail);
    }
  }

  lemma {:induction false} ReadEscapedAny(t: string, rest: string)
    ensures ReadLiteral(EscapeForLiteral(t) + [Quote] + rest) == Some((t, rest))
    decreases |t|
  {
    if t == [] {
      assert EscapeForLiteral(t) + [Quote] + rest == [Quote] + rest;
    } else {
      ReadEscapedAny(t[1..], rest);
      var tail := EscapeForLiteral(t[1..]) + [Quote] + rest;
      assert EscapeForLiteral(t) + [Quote] + rest == EscapeChar(t[0]) + tail;
      ReadEscapedChar(t[0], tail);
      assert [t[0]] + t[1..] == t;
    }
  }

  /** With the full escaping every text reaches the console unchanged. */
  lemma SafeScriptLogsAnyText(t: string)
    ensures LoggedText(SafeScript(t)) == Some(t)
  {
    ReadEscapedAny(t, ");");
    assert EscapeForLiteral(t) + [Quote] + ");" == EscapeForLiteral(t) + ScriptSuffix;
    LoggedTextOfScript(EscapeForLiteral(t));
  }
}
