/**
 * The request body of a port rename. main builds it by text substitution,
 * '{"name": "%s"}' % portName, so the name goes into the JSON text as it is,
 * without escaping.
 */
module Payload {

  import opened Wrappers

  /** The text before the name: {"name": " */
  const Prefix: string := "{\"name\": \""
  /** The text after the name: "} */
  const Suffix: string := "\"}"

  /** The body main sends for one row. */
  function NamePayload(name: string): string
  {
    Prefix + name + Suffix
  }

  /** Reads the name back out of a body of the form Prefix + name + Suffix. */
  function NameOf(data: string): Option<string>
  {
    if |data| >= |Prefix| + |Suffix| && data[..|Prefix|] == Prefix && data[|data| - |Suffix|..] == Suffix
    then Some(data[|Prefix|..|data| - |Suffix|])
    else None
  }

  /** Every body main sends has the fixed shape, and its name can be read back: the two are inverse. */
  lemma NameRoundTrip(name: string, data: string)
    ensures NameOf(NamePayload(name)) == Some(name)
    ensures NameOf(data) == Some(name) <==> data == NamePayload(name)
  {
  }

  /** Two different names never give the same body. */
  lemma NamePayloadInjective(a: string, b: string)
    requires NamePayload(a) == NamePayload(b)
    ensures a == b
  {
    NameRoundTrip(a, NamePayload(a));
    NameRoundTrip(b, NamePayload(b));
  }

  /** Index in the body where the name starts, just after the opening quote of the JSON string. */
  const NameStart: nat := |Prefix|

  /**
   * Where a JSON reader finds the end of a string literal whose contents
   * start at s[i]: the first quote that is not taken along by a backslash
   * escape, or None when the literal is never closed.
   */
  function ClosingQuote(s: string, i: nat): (r: Option<nat>)
    ensures r.Some? ==> i <= r.value < |s| && s[r.value] == '"'
    decreases |s| - i
  {
    if i >= |s| then None
    else if s[i] == '"' then Some(i)
    else if s[i] == '\\' then (if i + 1 < |s| then ClosingQuote(s, i + 2) else None)
    else ClosingQuote(s, i + 1)
  }

  /** A name with neither quote nor backslash. */
  predicate Plain(name: string) {
    forall k | 0 <= k < |name| :: name[k] != '"' && name[k] != '\\'
  }

  /** A run of plain characters does not change where the string literal ends. */
  lemma {:induction false} SkipPlain(s: string, i: nat, j: nat)
    requires i <= j <= |s|
    requires forall k | i <= k < j :: s[k] != '"' && s[k] != '\\'
    ensures ClosingQuote(s, i) == ClosingQuote(s, j)
    decreases j - i
  {
    if i < j {
      SkipPlain(s, i + 1, j);
    }
  }

  /**
   * For a name with neither quote nor backslash, the JSON string that holds
   * the name closes exactly at the end of the name.
   */
  lemma PlainNameIntact(name: string)
    requires Plain(name)
    ensures ClosingQuote(NamePayload(name), NameStart) == Some(NameStart + |name|)
  {
    var d := NamePayload(name);
    assert forall k | NameStart <= k < NameStart + |name| :: d[k] == name[k - NameStart];
    SkipPlain(d, NameStart, NameStart + |name|);
  }

  /**
   * A quote in the name ends the JSON string early: for a name a + '"' + b
   * with a plain, the reader takes the name to be a and reads b as JSON
   * text outside the string.
   */
  lemma QuoteEndsNameEarly(a: string, b: string)
    requires Plain(a)
    ensures ClosingQuote(NamePayload(a + "\"" + b), NameStart) == Some(NameStart + |a|)
  {
    var d := NamePayload(a + "\"" + b);
    assert forall k | NameStart <= k < NameStart + |a| :: d[k] == a[k - NameStart];
    assert d[NameStart + |a|] == '"';
    SkipPlain(d, NameStart, NameStart + |a|);
  }

  /**
   * A name made of a plain part a followed by one backslash escapes the
   * closing quote: the JSON string is never closed, so the body is not JSON
   * at all.
   */
  lemma TrailingBackslashUnterminated(a: string)
    requires Plain(a)
    ensures ClosingQuote(NamePayload(a + "\\"), NameStart) == None
  {
    var d := NamePayload(a + "\\");
    var e := NameStart + |a|;
    assert |d| == e + 3;
    assert d[e] == '\\' && d[e + 1] == '"' && d[e + 2] == '}';
    assert ClosingQuote(d, e) == None;
    assert forall k | NameStart <= k < e :: d[k] == a[k - NameStart];
    SkipPlain(d, NameStart, e);
  }

  /**
   * Two backslashes after a plain part a escape each other: the JSON string
   * closes right after them, at the end of the name.
   */
  lemma DoubledBackslashCloses(a: string)
    requires Plain(a)
    ensures ClosingQuote(NamePayload(a + "\\\\"), NameStart) == Some(NameStart + |a| + 2)
  {
    var d := NamePayload(a + "\\\\");
    var e := NameStart + |a|;
    assert |d| == e + 4;
    assert d[e] == '\\' && d[e + 1] == '\\' && d[e + 2] == '"';
    assert ClosingQuote(d, e) == Some(e + 2);
    assert forall k | NameStart <= k < e :: d[k] == a[k - NameStart];
    SkipPlain(d, NameStart, e);
  }

  /**
   * A name that a JSON string literal holds as it is: no quote, no
   * backslash and no control character (below U+0020), which section 7 of
   * RFC 8259 requires to be escaped.
   */
  predicate Verbatim(name: string) {
    Plain(name) && forall k | 0 <= k < |name| :: name[k] >= ' '
  }

  /** The value of c as a hexadecimal digit, or None when it is not one. */
  function HexDigit(c: char): (r: Option<nat>)
    ensures r.Some? ==> r.value < 16 && c != '"' && c != '\\'
  {
    if '0' <= c <= '9' then Some(c as nat - '0' as nat)
    else if 'a' <= c <= 'f' then Some(c as nat - 'a' as nat + 10)
    else if 'A' <= c <= 'F' then Some(c as nat - 'A' as nat + 10)
    else None
  }

  /** The four hexadecimal digits s[p..p + 4] of a \u escape as a number. */
  function Hex4(s: string, p: nat): (r: Option<nat>)
    ensures r.Some? ==> p + 4 <= |s| && r.value < 0x10000
    ensures r.Some? ==> forall k | p <= k < p + 4 :: HexDigit(s[k]).Some?
  {
    if p + 4 > |s| then None
    else match (HexDigit(s[p]), HexDigit(s[p + 1]), HexDigit(s[p + 2]), HexDigit(s[p + 3]))
      case (Some(a), Some(b), Some(c), Some(d)) => Some(a * 0x1000 + b * 0x100 + c * 0x10 + d)
      case _ => None
  }

  /** The character a one-letter escape \c stands for, or None when JSON has no such escape. */
  function LetterEscape(c: char): Option<char>
  {
    if c == '"' || c == '\\' || c == '/' then Some(c)
    else if c == 'b' then Some(8 as char)
    else if c == 'f' then Some(12 as char)
    else if c == 'n' then Some('\n')
    else if c == 'r' then Some('\r')
    else if c == 't' then Some('\t')
    else None
  }

  /**
   * The escape whose letter is s[p], just after a backslash: the character
   * it stands for and the index after it, or None when section 7 of
   * RFC 8259 allows no such escape. A \u escape of a high surrogate must be
   * followed by one of a low surrogate; the pair stands for one character.
   */
  function Escape(s: string, p: nat): (r: Option<(char, nat)>)
    ensures r.Some? ==> p < r.value.1 <= |s|
  {
    if p >= |s| then None
    else if s[p] != 'u' then
      match LetterEscape(s[p])
      case Some(c) => Some((c, p + 1))
      case None => None
    else match Hex4(s, p + 1)
      case None => None
      case Some(u) =>
        if u < 0xD800 || 0xE000 <= u then Some((u as char, p + 5))
        else if u < 0xDC00 && p + 6 < |s| && s[p + 5] == '\\' && s[p + 6] == 'u' then
          match Hex4(s, p + 7)
          case Some(v) =>
            if 0xDC00 <= v < 0xE000
            then Some(((0x10000 + (u - 0xD800) * 0x400 + (v - 0xDC00)) as char, p + 11))
            else None
          case None => None
        else None
  }

  /**
   * What a JSON reader makes of a string literal whose contents start at
   * s[i]: the decoded text and the index of the closing quote, or None when
   * the literal is not valid JSON (never closed, an unknown escape, a raw
   * control character). The decoded text is never longer than the source
   * text, and as long only when it is a verbatim copy of it.
   */
  function DecodeString(s: string, i: nat): (r: Option<(string, nat)>)
    ensures r.Some? ==> i <= r.value.1 < |s| && s[r.value.1] == '"'
    ensures r.Some? ==> |r.value.0| <= r.value.1 - i
    ensures r.Some? && |r.value.0| == r.value.1 - i ==>
      r.value.0 == s[i..r.value.1] && Verbatim(r.value.0)
    decreases |s| - i
  {
    if i >= |s| then None
    else if s[i] == '"' then Some(("", i))
    else if s[i] < ' ' then None
    else if s[i] != '\\' then
      match DecodeString(s, i + 1)
      case None => None
      case Some((t, j)) =>
        assert s[i..j] == [s[i]] + s[i + 1..j];
        Some(([s[i]] + t, j))
    else
      match Escape(s, i + 1)
      case None => None
      case Some((c, k)) =>
        match DecodeString(s, k)
        case None => None
        case Some((t, j)) => Some(([c] + t, j))
  }

  /** Where decoding succeeds, it ends the literal where the scanner ClosingQuote does. */
  lemma {:induction false} DecodeClosesWhereScanned(s: string, i: nat)
    requires DecodeString(s, i).Some?
    ensures ClosingQuote(s, i) == Some(DecodeString(s, i).value.1)
    decreases |s| - i
  {
    if s[i] == '"' {
    } else if s[i] != '\\' {
      DecodeClosesWhereScanned(s, i + 1);
    } else {
      var k := Escape(s, i + 1).value.1;
      DecodeClosesWhereScanned(s, k);
      if s[i + 1] == 'u' {
        SkipPlain(s, i + 2, i + 6);
        if k == i + 12 {
          SkipPlain(s, i + 8, i + 12);
        }
      }
    }
  }

  /** A verbatim run of text decodes to itself, in front of whatever follows it. */
  lemma {:induction false} DecodeVerbatim(s: string, i: nat, j: nat)
    requires i <= j <= |s| && Verbatim(s[i..j])
    ensures DecodeString(s, j).None? ==> DecodeString(s, i).None?
    ensures DecodeString(s, j).Some? ==>
      DecodeString(s, i) == Some((s[i..j] + DecodeString(s, j).value.0, DecodeString(s, j).value.1))
    decreases j - i
  {
    if i < j {
      assert s[i..j][0] == s[i];
      assert s[i + 1..j] == s[i..j][1..];
      DecodeVerbatim(s, i + 1, j);
      if DecodeString(s, j).Some? {
        var t := DecodeString(s, j).value.0;
        assert s[i..j] + t == [s[i]] + (s[i + 1..j] + t);
      }
    } else if DecodeString(s, j).Some? {
      assert s[i..j] + DecodeString(s, j).value.0 == DecodeString(s, j).value.0;
    }
  }

  /**
   * The name in the body as a JSON reader sees it, when the body is the
   * object {"name": "..."} laid out as the template lays it out, with the
   * string closed just before the final brace; None when it is not.
   */
  function SoleName(data: string): Option<string>
  {
    if |data| >= NameStart && data[..NameStart] == Prefix then
      match DecodeString(data, NameStart)
      case Some((t, j)) => if data[j + 1..] == "}" then Some(t) else None
      case None => None
    else None
  }

  /**
   * A name reaches the dashboard unchanged exactly when it is verbatim: a
   * name holding a quote, a backslash or a control character never reads
   * back as itself, because the substitution does not escape it.
   */
  lemma NameReadsBackIff(name: string)
    ensures SoleName(NamePayload(name)) == Some(name) <==> Verbatim(name)
  {
    var d := NamePayload(name);
    var e := NameStart + |name|;
    assert d[..NameStart] == Prefix;
    assert d[NameStart..e] == name;
    assert d[e] == '"' && d[e + 1..] == "}";
    if Verbatim(name) {
      DecodeVerbatim(d, NameStart, e);
      assert name + "" == name;
    }
    if SoleName(d) == Some(name) {
      var j := DecodeString(d, NameStart).value.1;
      assert |d| == e + 2;
      assert |d[j + 1..]| == 1;
    }
  }

  /** An escape in the name is decoded: the name C:\temp reaches the switch with a tab for \t. */
  lemma EscapeRenames()
    ensures SoleName(NamePayload("C:\\temp")) == Some("C:\temp")
  {
    var d := NamePayload("C:\\temp");
    assert d[..NameStart] == Prefix;
    assert d[NameStart..NameStart + 2] == "C:";
    assert Escape(d, NameStart + 3) == Some(('\t', NameStart + 4));
    assert d[NameStart + 4..NameStart + 7] == "emp";
    assert DecodeString(d, NameStart + 7) == Some(("", NameStart + 7));
    DecodeVerbatim(d, NameStart + 4, NameStart + 7);
    assert DecodeString(d, NameStart + 4) == Some(("emp", NameStart + 7));
    assert d[NameStart + 2] == '\\';
    assert ['\t'] + "emp" == "\temp";
    assert DecodeString(d, NameStart + 2) == Some(("\temp", NameStart + 7));
    DecodeVerbatim(d, NameStart, NameStart + 2);
    assert "C:" + "\temp" == "C:\temp";
    assert d[NameStart + 8..] == "}";
  }

  /** An escape JSON does not know makes the body unreadable: Desk\12 is no JSON string. */
  lemma UnknownEscapeUnreadable()
    ensures SoleName(NamePayload("Desk\\12")) == None
  {
    var d := NamePayload("Desk\\12");
    assert d[NameStart..NameStart + 4] == "Desk";
    assert d[NameStart + 4] == '\\' && d[NameStart + 5] == '1';
    assert DecodeString(d, NameStart + 4) == None;
    DecodeVerbatim(d, NameStart, NameStart + 4);
  }

  /**
   * The substitution lets a name inject members: this name turns the body
   * into an object with a second member "enabled".
   */
  lemma NameInjectsMember()
    ensures NamePayload("x\", \"enabled\": \"no") == "{\"name\": \"x\", \"enabled\": \"no\"}"
  {
  }
}
