/** The wallet index record and the text form it is stored in.

    The store hands `[WalletMetadata]` to `JSONEncoder` and reads it back with
    `JSONDecoder`. Here that pair is a concrete, strict codec for exactly the
    shape the store writes, `[{"name":"…","address":"…"},…]`, where a string
    escapes `"` and `\` with a backslash. The rest of the model relies only on
    the two facts proved at the end: decoding an encoding gives the list back,
    and the initial file content `[]` decodes to the empty list. */
module MetadataCodec {
  import opened Wrappers

  /** One entry of the wallet index: a display name and the wallet's address. */
  datatype WalletMetadata = WalletMetadata(name: string, address: string)

  const NameKey := "{\"name\":"
  const AddressKey := ",\"address\":"
  const EmptyList := "[]"

  /** Characters that cannot appear bare inside a string literal. */
  predicate MustEscape(c: char) {
    c == '"' || c == '\\'
  }

  /** The escaped characters of `s`, followed by `rest`. Each encoder
      takes the text that follows it, so no step of the round trip has to
      regroup a concatenation. */
  function EscapeThen(s: string, rest: string): string {
    if s == [] then rest
    else if MustEscape(s[0]) then ['\\', s[0]] + EscapeThen(s[1..], rest)
    else [s[0]] + EscapeThen(s[1..], rest)
  }

  /** A quoted string literal for `s`, followed by `rest`. */
  function TextThen(s: string, rest: string): string {
    "\"" + EscapeThen(s, "\"" + rest)
  }

  /** `{"name":…,"address":…}` for `m`, followed by `rest`. */
  function RecordThen(m: WalletMetadata, rest: string): string {
    NameKey + TextThen(m.name, AddressKey + TextThen(m.address, "}" + rest))
  }

  /** Every record of `ms`, each preceded by a comma, followed by `rest`. */
  function TailThen(ms: seq<WalletMetadata>, rest: string): string {
    if ms == [] then rest else "," + RecordThen(ms[0], TailThen(ms[1..], rest))
  }

  /** The text written for `ms`: a bracketed list, `[]` only when empty. */
  function Encode(ms: seq<WalletMetadata>): (r: string)
    ensures |r| >= 2 && r[0] == '['
    ensures r == EmptyList <==> ms == []
  {
    if ms == [] then EmptyList
    else "[" + RecordThen(ms[0], TailThen(ms[1..], "]"))
  }

  /** Consumes the literal `lit` at the front of `s`. */
  function Expect(lit: string, s: string): (r: Option<string>)
    ensures r.Some? <==> |lit| <= |s| && s[..|lit|] == lit
    ensures r.Some? ==> s == lit + r.value
  {
    if |lit| <= |s| && s[..|lit|] == lit then Some(s[|lit|..]) else None
  }

  /** Reads the inside of a string literal up to its closing quote; returns
      the unescaped text and what follows the quote. */
  function ParseTextBody(s: string): (r: Option<(string, string)>)
    ensures r.Some? ==> |r.value.1| < |s|
  {
    if s == [] then None
    else if s[0] == '"' then Some(([], s[1..]))
    else if s[0] == '\\' then
      if |s| >= 2 && MustEscape(s[1]) then
        match ParseTextBody(s[2..])
        case None => None
        case Some((t, rest)) => Some(([s[1]] + t, rest))
      else None
    else
      match ParseTextBody(s[1..])
      case None => None
      case Some((t, rest)) => Some(([s[0]] + t, rest))
  }

  function ParseText(s: string): (r: Option<(string, string)>)
    ensures r.Some? ==> |r.value.1| < |s|
  {
    var body :- Expect("\"", s);
    ParseTextBody(body)
  }

  function ParseRecord(s: string): (r: Option<(WalletMetadata, string)>)
    ensures r.Some? ==> |r.value.1| < |s|
  {
    var afterName :- Expect(NameKey, s);
    var name :- ParseText(afterName);
    var afterAddress :- Expect(AddressKey, name.1);
    var address :- ParseText(afterAddress);
    var rest :- Expect("}", address.1);
    Some((WalletMetadata(name.0, address.0), rest))
  }

  /** Reads `,record` repeatedly up to and including the closing bracket. */
  function ParseTail(s: string): Option<(seq<WalletMetadata>, string)>
    decreases |s|
  {
    if |s| > 0 && s[0] == ']' then Some(([], s[1..]))
    else if |s| > 0 && s[0] == ',' then
      match ParseRecord(s[1..])
      case None => None
      case Some((m, rest)) =>
        match ParseTail(rest)
        case None => None
        case Some((ms, rest')) => Some(([m] + ms, rest'))
    else None
  }

  /** `None` is a decoding error: the text is not one whole encoded list.
      Decoding is strict: a text it accepts is exactly the encoding of the
      list it returns. */
  function Decode(s: string): (r: Option<seq<WalletMetadata>>)
    ensures r.Some? ==> Encode(r.value) == s
  {
    DecodeInverse(s);
    var body :- Expect("[", s);
    if body == "]" then Some([])
    else
      var first :- ParseRecord(body);
      var tail :- ParseTail(first.1);
      if tail.1 == [] then Some([first.0] + tail.0) else None
  }

  lemma ExpectLiteral(lit: string, rest: string)
    ensures Expect(lit, lit + rest) == Some(rest)
  {
  }

  lemma {:induction false} ParseTextBodyEscaped(t: string, rest: string)
    ensures ParseTextBody(EscapeThen(t, "\"" + rest)) == Some((t, rest))
  {
    var s := EscapeThen(t, "\"" + rest);
    if t == [] {
      assert s[0] == '"' && s[1..] == rest;
    } else {
      var after := EscapeThen(t[1..], "\"" + rest);
      ParseTextBodyEscaped(t[1..], rest);
      if MustEscape(t[0]) {
        assert s[0] == '\\' && s[1] == t[0] && s[2..] == after;
      } else {
        assert s[0] == t[0] && s[1..] == after;
      }
      assert [t[0]] + t[1..] == t;
    }
  }

  lemma ParseTextEncoded(t: string, rest: string)
    ensures ParseText(TextThen(t, rest)) == Some((t, rest))
  {
    ExpectLiteral("\"", EscapeThen(t, "\"" + rest));
    ParseTextBodyEscaped(t, rest);
  }

  lemma ParseRecordEncoded(m: WalletMetadata, rest: string)
    ensures ParseRecord(RecordThen(m, rest)) == Some((m, rest))
  {
    var afterAddress := TextThen(m.address, "}" + rest);
    var afterName := TextThen(m.name, AddressKey + afterAddress);
    ExpectLiteral(NameKey, afterName);
    ParseTextEncoded(m.name, AddressKey + afterAddress);
    ExpectLiteral(AddressKey, afterAddress);
    ParseTextEncoded(m.address, "}" + rest);
    ExpectLiteral("}", rest);
  }

  /** One `,record` step of `ParseTail`. */
  lemma ParseTailStep(s: string, m: WalletMetadata, afterRecord: string, ms: seq<WalletMetadata>, rest: string)
    requires |s| > 0 && s[0] == ','
    requires ParseRecord(s[1..]) == Some((m, afterRecord))
    requires ParseTail(afterRecord) == Some((ms, rest))
    ensures ParseTail(s) == Some(([m] + ms, rest))
  {
  }

  lemma {:induction false} ParseTailEncoded(ms: seq<WalletMetadata>, rest: string)
    ensures ParseTail(TailThen(ms, "]" + rest)) == Some((ms, rest))
  {
    var s := TailThen(ms, "]" + rest);
    if ms == [] {
      assert s[0] == ']' && s[1..] == rest;
    } else {
      var after := TailThen(ms[1..], "]" + rest);
      assert s[0] == ',' && s[1..] == RecordThen(ms[0], after);
      ParseRecordEncoded(ms[0], after);
      ParseTailEncoded(ms[1..], rest);
      ParseTailStep(s, ms[0], after, ms[1..], rest);
      assert [ms[0]] + ms[1..] == ms;
    }
  }

  /** How `Decode` reads a non-empty list once its pieces are known. */
  lemma DecodeNonEmpty(body: string, m: WalletMetadata, tail: string, ms: seq<WalletMetadata>)
    requires body != "]"
    requires ParseRecord(body) == Some((m, tail))
    requires ParseTail(tail) == Some((ms, []))
    ensures Decode("[" + body) == Some([m] + ms)
  {
  }

  /** The codec round trip: whatever list is written is read back unchanged. */
  lemma DecodeEncode(ms: seq<WalletMetadata>)
    ensures Decode(Encode(ms)) == Some(ms)
  {
    if ms != [] {
      var tail := TailThen(ms[1..], "]");
      var body := RecordThen(ms[0], tail);
      assert body[0] == '{';
      ParseRecordEncoded(ms[0], tail);
      assert "]" == "]" + [];
      ParseTailEncoded(ms[1..], []);
      DecodeNonEmpty(body, ms[0], tail, ms[1..]);
      assert [ms[0]] + ms[1..] == ms;
    }
  }

  lemma {:induction false} ParseTextBodyInverse(s: string)
    ensures ParseTextBody(s).Some? ==>
              s == EscapeThen(ParseTextBody(s).value.0, "\"" + ParseTextBody(s).value.1)
    decreases |s|
  {
    if s != [] && s[0] != '"' {
      if s[0] == '\\' {
        if |s| >= 2 && MustEscape(s[1]) {
          ParseTextBodyInverse(s[2..]);
          if ParseTextBody(s).Some? {
            var t := ParseTextBody(s[2..]).value.0;
            assert ([s[1]] + t)[1..] == t;
            assert s == ['\\', s[1]] + s[2..];
          }
        }
      } else {
        ParseTextBodyInverse(s[1..]);
        if ParseTextBody(s).Some? {
          var t := ParseTextBody(s[1..]).value.0;
          assert ([s[0]] + t)[1..] == t;
          assert s == [s[0]] + s[1..];
        }
      }
    } else if s != [] {
      assert s == "\"" + s[1..];
    }
  }

  lemma ParseTextInverse(s: string)
    ensures ParseText(s).Some? ==> s == TextThen(ParseText(s).value.0, ParseText(s).value.1)
  {
    if Expect("\"", s).Some? {
      ParseTextBodyInverse(Expect("\"", s).value);
    }
  }

  lemma ParseRecordInverse(s: string)
    ensures ParseRecord(s).Some? ==> s == RecordThen(ParseRecord(s).value.0, ParseRecord(s).value.1)
  {
    if ParseRecord(s).Some? {
      var afterName := Expect(NameKey, s).value;
      ParseTextInverse(afterName);
      var name := ParseText(afterName).value;
      var afterAddress := Expect(AddressKey, name.1).value;
      ParseTextInverse(afterAddress);
    }
  }

  lemma {:induction false} ParseTailInverse(s: string)
    ensures ParseTail(s).Some? ==> s == TailThen(ParseTail(s).value.0, "]" + ParseTail(s).value.1)
    decreases |s|
  {
    if |s| > 0 && s[0] == ']' {
      assert s == "]" + s[1..];
    } else if |s| > 0 && s[0] == ',' && ParseTail(s).Some? {
      ParseRecordInverse(s[1..]);
      var first := ParseRecord(s[1..]).value;
      ParseTailInverse(first.1);
      var ms := ParseTail(first.1).value.0;
      assert ([first.0] + ms)[0] == first.0 && ([first.0] + ms)[1..] == ms;
      assert s == "," + s[1..];
    }
  }

  /** A text `Decode` accepts is the encoding of what it returns. */
  lemma DecodeInverse(s: string)
    ensures var body := Expect("[", s);
            body.Some? && body.value == "]" ==> s == EmptyList
    ensures var body := Expect("[", s);
            body.Some? && body.value != "]" && ParseRecord(body.value).Some?
            && ParseTail(ParseRecord(body.value).value.1).Some?
            && ParseTail(ParseRecord(body.value).value.1).value.1 == [] ==>
              var first := ParseRecord(body.value).value;
              var ms := [first.0] + ParseTail(first.1).value.0;
              s == "[" + RecordThen(ms[0], TailThen(ms[1..], "]"))
  {
    var body := Expect("[", s);
    if body.Some? && body.value != "]" && ParseRecord(body.value).Some? {
      var first := ParseRecord(body.value).value;
      ParseRecordInverse(body.value);
      ParseTailInverse(first.1);
      if ParseTail(first.1).Some? {
        var ms := [first.0] + ParseTail(first.1).value.0;
        assert ms[0] == first.0 && ms[1..] == ParseTail(first.1).value.0;
        assert "]" + [] == "]";
      }
    }
  }

  /** The text a fresh index file is created with is the empty list. */
  lemma EmptyListDecodes()
    ensures Encode([]) == EmptyList
    ensures Decode(EmptyList) == Some([])
  {
  }
}
