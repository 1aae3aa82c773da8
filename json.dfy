/**
 * `JSON.stringify` and `JSON.parse` restricted to what the bot stores in its
 * configuration columns: arrays of strings (`adminUserIds`,
 * `customBlockedRanges`, `allowedChannels`). Stringify follows ECMAScript's
 * string quoting exactly; Parse accepts JSON text whose value is an array of
 * strings, with JSON whitespace between tokens, decodes a `\u` surrogate pair
 * into the one character it encodes, and fails on anything else, a lone
 * surrogate escape included.
 */
module Json {
  import opened Js

  /** The lower-case hexadecimal digit of `d`. */
  function HexDigit(d: nat): (c: char)
    requires d < 16
  {
    if d < 10 then ('0' as int + d) as char else ('a' as int + d - 10) as char
  }

  /** The value of a hexadecimal digit of either case, if `c` is one. */
  function HexValue(c: char): (r: Option<nat>)
    ensures r.Some? ==> r.value < 16
  {
    if '0' <= c <= '9' then Some(c as int - '0' as int)
    else if 'a' <= c <= 'f' then Some(c as int - 'a' as int + 10)
    else if 'A' <= c <= 'F' then Some(c as int - 'A' as int + 10)
    else None
  }

  lemma HexRoundTrip(d: nat)
    requires d < 16
    ensures HexValue(HexDigit(d)) == Some(d)
  {
  }

  /** How `JSON.stringify` writes one character inside a string literal. */
  function EscapeChar(c: char): (r: string)
    ensures |r| >= 1
    ensures r[0] == '\\' || (r == [c] && c != '"' && c >= ' ')
  {
    if c == '"' then "\\\""
    else if c == '\\' then "\\\\"
    else if c == '\U{8}' then "\\b"
    else if c == '\U{9}' then "\\t"
    else if c == '\U{A}' then "\\n"
    else if c == '\U{C}' then "\\f"
    else if c == '\U{D}' then "\\r"
    else if c < ' ' then "\\u00" + [HexDigit(c as int / 16), HexDigit(c as int % 16)]
    else [c]
  }

  function Escape(s: string): string {
    if s == [] then [] else EscapeChar(s[0]) + Escape(s[1..])
  }

  /** The JSON string literal for `s`. */
  function Quote(s: string): string {
    "\"" + Escape(s) + "\""
  }

  function Items(xs: seq<string>): string {
    if xs == [] then []
    else if |xs| == 1 then Quote(xs[0])
    else Quote(xs[0]) + "," + Items(xs[1..])
  }

  /**
   * `JSON.stringify(xs)` for an array of strings: a bracketed text, `[]`
   * exactly for the empty array, and otherwise opening with the first
   * element's quote.
   */
  function Stringify(xs: seq<string>): (r: string)
    ensures |r| >= 2 && r[0] == '[' && r[|r| - 1] == ']'
    ensures r == "[]" <==> xs == []
    ensures xs != [] ==> r[1] == '"'
  {
    assert xs != [] ==> Items(xs)[0] == '"';
    "[" + Items(xs) + "]"
  }

  /** JSON's insignificant whitespace. */
  predicate IsJsonSpace(c: char) {
    c == ' ' || c == '\U{9}' || c == '\U{A}' || c == '\U{D}'
  }

  function SkipSpace(t: string): (r: string)
    ensures |r| <= |t|
  {
    if t != [] && IsJsonSpace(t[0]) then SkipSpace(t[1..]) else t
  }

  /** Four hexadecimal digits starting at `t[0]`, as a number. */
  function Hex4(t: string): Option<nat>
    requires |t| >= 4
  {
    match (HexValue(t[0]), HexValue(t[1]), HexValue(t[2]), HexValue(t[3]))
    case (Some(a), Some(b), Some(c), Some(d)) => Some(a * 4096 + b * 256 + c * 16 + d)
    case _ => None
  }

  /**
   * One character of a string literal's body and the text after it. A `\u`
   * escape of a high surrogate followed by one of a low surrogate is the pair
   * of UTF-16 code units of one character beyond U+FFFF. A lone surrogate is
   * refused (see the README).
   */
  function DecodeChar(t: string): (r: Option<(char, string)>)
    requires t != [] && t[0] != '"'
    ensures r.Some? ==> |r.value.1| < |t|
  {
    if t[0] == '\\' then
      if |t| < 2 then None
      else if t[1] == '"' then Some(('"', t[2..]))
      else if t[1] == '\\' then Some(('\\', t[2..]))
      else if t[1] == '/' then Some(('/', t[2..]))
      else if t[1] == 'b' then Some(('\U{8}', t[2..]))
      else if t[1] == 'f' then Some(('\U{C}', t[2..]))
      else if t[1] == 'n' then Some(('\U{A}', t[2..]))
      else if t[1] == 'r' then Some(('\U{D}', t[2..]))
      else if t[1] == 't' then Some(('\U{9}', t[2..]))
      else if t[1] == 'u' && |t| >= 6 then
        match Hex4(t[2..6])
        case Some(v) =>
          if 0xD800 <= v <= 0xDBFF then LowSurrogate(v, t[6..])
          else if 0xDC00 <= v <= 0xDFFF then None
          else Some((v as char, t[6..]))
        case None => None
      else None
    else if t[0] < ' ' then None
    else Some((t[0], t[1..]))
  }

  /** The `\uXXXX` low surrogate that must follow the high surrogate `hi`, combined with it. */
  function LowSurrogate(hi: nat, t: string): (r: Option<(char, string)>)
    requires 0xD800 <= hi <= 0xDBFF
    ensures r.Some? ==> |r.value.1| < |t| && r.value.0 as int >= 0x10000
  {
    if |t| >= 6 && t[0] == '\\' && t[1] == 'u' then
      match Hex4(t[2..6])
      case Some(lo) =>
        if 0xDC00 <= lo <= 0xDFFF then
          Some(((0x10000 + (hi - 0xD800) * 0x400 + (lo - 0xDC00)) as char, t[6..]))
        else None
      case None => None
    else None
  }

  /** The body of a string literal up to its closing quote, and the text after it. */
  function ParseBody(t: string): (r: Option<(string, string)>)
    ensures r.Some? ==> |r.value.1| < |t|
    decreases |t|
  {
    if t == [] then None
    else if t[0] == '"' then Some(([], t[1..]))
    else
      match DecodeChar(t)
      case None => None
      case Some((c, t')) =>
        match ParseBody(t')
        case None => None
        case Some((v, rest)) => Some(([c] + v, rest))
  }

  function ParseString(t: string): (r: Option<(string, string)>)
    ensures r.Some? ==> |r.value.1| < |t|
  {
    if t != [] && t[0] == '"' then ParseBody(t[1..]) else None
  }

  /** `s ("," s)* "]"` with whitespace around each token, from a first string on. */
  function ParseElements(t: string): (r: Option<(seq<string>, string)>)
    ensures r.Some? ==> |r.value.1| < |t|
    decreases |t|
  {
    match ParseString(t)
    case None => None
    case Some((x, r0)) =>
      var r1 := SkipSpace(r0);
      if r1 == [] then None
      else if r1[0] == ']' then Some(([x], r1[1..]))
      else if r1[0] == ',' then
        match ParseElements(SkipSpace(r1[1..]))
        case None => None
        case Some((xs, r2)) => Some(([x] + xs, r2))
      else None
  }

  /**
   * `JSON.parse(t)` when its result is an array of strings; `None` otherwise.
   * Only a text whose first token is `[` parses, and `[]` is the empty array.
   */
  function Parse(t: string): (r: Option<seq<string>>)
    ensures r.Some? ==> SkipSpace(t) != [] && SkipSpace(t)[0] == '['
    ensures t == "[]" ==> r == Some([])
  {
    assert t == "[]" ==> SkipSpace(t) == t && SkipSpace(t[1..]) == "]" && SkipSpace("") == "";
    var t1 := SkipSpace(t);
    if t1 == [] || t1[0] != '[' then None
    else
      var t2 := SkipSpace(t1[1..]);
      if t2 != [] && t2[0] == ']' then
        if SkipSpace(t2[1..]) == [] then Some([]) else None
      else
        match ParseElements(t2)
        case None => None
        case Some((xs, rest)) => if SkipSpace(rest) == [] then Some(xs) else None
  }

  /** An escaped surrogate pair, such as the one written for an emoji, decodes to its character. */
  lemma SurrogatePairParses()
    ensures Parse("[\"\\ud83d\\ude00\"]") == Some(["\U{1F600}"])
  {
    var q := "\"\\ud83d\\ude00\"]";
    var full := "[" + q;
    assert full == "[\"\\ud83d\\ude00\"]";
    EmojiElements();
    SkipSpaceStops(full);
    assert full[1..] == q;
    SkipSpaceStops(q);
    assert SkipSpace("") == "";
  }

  lemma EmojiElements()
    ensures ParseElements("\"\\ud83d\\ude00\"]") == Some((["\U{1F600}"], ""))
  {
    var q := "\"\\ud83d\\ude00\"]";
    EmojiBody();
    assert q[0] == '"' && q[1..] == "\\ud83d\\ude00\"]";
    assert "]" + "" == "]";
    ElementsLast(q, "\U{1F600}", "");
  }

  lemma EmojiBody()
    ensures ParseBody("\\ud83d\\ude00\"]") == Some(("\U{1F600}", "]"))
  {
    var t := "\\ud83d\\ude00\"]";
    EmojiDecodes();
    assert ParseBody("\"]") == Some(([], "]"));
    ParseBodyCons(t, '\U{1F600}', "\"]");
    assert ['\U{1F600}'] + [] == "\U{1F600}";
  }

  lemma EmojiDecodes()
    ensures DecodeChar("\\ud83d\\ude00\"]") == Some(('\U{1F600}', "\"]"))
  {
    var t := "\\ud83d\\ude00\"]";
    assert t[2..6] == "d83d" && t[6..] == "\\ude00\"]";
    EmojiHex();
    EmojiLow();
  }

  lemma EmojiLow()
    ensures LowSurrogate(0xD83D, "\\ude00\"]") == Some(('\U{1F600}', "\"]"))
  {
    var t := "\\ude00\"]";
    assert t[2..6] == "de00" && t[6..] == "\"]";
    EmojiHex();
  }

  lemma EmojiHex()
    ensures Hex4("d83d") == Some(0xD83D) && Hex4("de00") == Some(0xDE00)
  {
  }

  // ---------------------------------------------------------------------
  // Round trip: what the bot writes with JSON.stringify it reads back.

  lemma DecodeEscapeChar(c: char, more: string)
    ensures (EscapeChar(c) + more)[0] != '"'
    ensures DecodeChar(EscapeChar(c) + more) == Some((c, more))
  {
    var e := EscapeChar(c);
    var t := e + more;
    if c < ' ' && c != '\U{8}' && c != '\U{9}' && c != '\U{A}' && c != '\U{C}' && c != '\U{D}' {
      var hi, lo := c as int / 16, c as int % 16;
      assert t[2..6] == ['0', '0', HexDigit(hi), HexDigit(lo)];
      HexRoundTrip(hi);
      HexRoundTrip(lo);
      assert Hex4(t[2..6]) == Some(hi * 16 + lo);
      assert t[6..] == more;
    } else if |e| == 2 {
      assert t[2..] == more;
    } else {
      assert t[1..] == more;
    }
  }

  lemma {:induction false} ParseBodyEscape(s: string, rest: string)
    ensures ParseBody(Escape(s) + "\"" + rest) == Some((s, rest))
  {
    var t := Escape(s) + "\"" + rest;
    if s == [] {
      assert t == "\"" + rest;
      ParseBodyClose(rest);
    } else {
      var more := Escape(s[1..]) + "\"" + rest;
      assert t == EscapeChar(s[0]) + more;
      ParseBodyEscape(s[1..], rest);
      ParseBodyEscapeStep(s[0], more, s[1..], rest);
      assert [s[0]] + s[1..] == s;
    }
  }

  lemma ParseBodyClose(rest: string)
    ensures ParseBody("\"" + rest) == Some(([], rest))
  {
    assert ("\"" + rest)[1..] == rest;
  }

  /** One escaped character in front of a body that parses. */
  lemma ParseBodyEscapeStep(c: char, more: string, v: string, rest: string)
    requires ParseBody(more) == Some((v, rest))
    ensures ParseBody(EscapeChar(c) + more) == Some(([c] + v, rest))
  {
    DecodeEscapeChar(c, more);
    ParseBodyCons(EscapeChar(c) + more, c, more);
  }

  /** One step of `ParseBody`: a decoded character followed by the rest of the body. */
  lemma ParseBodyCons(t: string, c: char, more: string)
    requires t != [] && t[0] != '"' && DecodeChar(t) == Some((c, more))
    ensures ParseBody(more).Some? ==>
      ParseBody(t) == Some(([c] + ParseBody(more).value.0, ParseBody(more).value.1))
  {
  }

  lemma ParseQuote(s: string, rest: string)
    ensures ParseString(Quote(s) + rest) == Some((s, rest))
  {
    var t := Quote(s) + rest;
    assert t[1..] == Escape(s) + "\"" + rest;
    ParseBodyEscape(s, rest);
  }

  lemma SkipSpaceStops(t: string)
    requires t != [] && !IsJsonSpace(t[0])
    ensures SkipSpace(t) == t
  {
  }

  lemma ElementsLast(t: string, x: string, rest: string)
    requires ParseString(t) == Some((x, "]" + rest))
    ensures ParseElements(t) == Some(([x], rest))
  {
    var r0 := "]" + rest;
    SkipSpaceStops(r0);
    assert r0[1..] == rest;
  }

  lemma ElementsMore(t: string, x: string, tail: string, xs: seq<string>, rest: string)
    requires ParseString(t) == Some((x, "," + tail))
    requires SkipSpace(tail) == tail
    requires ParseElements(tail) == Some((xs, rest))
    ensures ParseElements(t) == Some(([x] + xs, rest))
  {
    var r0 := "," + tail;
    SkipSpaceStops(r0);
    assert r0[1..] == tail;
  }

  /** A non-empty item list, followed by anything, starts with a quote. */
  lemma ItemsNoLeadingSpace(xs: seq<string>, more: string)
    requires |xs| >= 1
    ensures SkipSpace(Items(xs) + more) == Items(xs) + more
  {
    var t := Items(xs) + more;
    assert t[0] == Quote(xs[0])[0];
    SkipSpaceStops(t);
  }

  lemma ParseItemsOne(xs: seq<string>, rest: string)
    requires |xs| == 1
    ensures ParseElements(Items(xs) + "]" + rest) == Some((xs, rest))
  {
    var t := Items(xs) + "]" + rest;
    assert t == Quote(xs[0]) + ("]" + rest);
    ParseQuote(xs[0], "]" + rest);
    ElementsLast(t, xs[0], rest);
    assert [xs[0]] == xs;
  }

  lemma ParseItemsCons(xs: seq<string>, rest: string)
    requires |xs| >= 2
    requires ParseElements(Items(xs[1..]) + "]" + rest) == Some((xs[1..], rest))
    ensures ParseElements(Items(xs) + "]" + rest) == Some((xs, rest))
  {
    var x, ys := xs[0], xs[1..];
    var tail := Items(ys) + "]" + rest;
    var t := Items(xs) + "]" + rest;
    TailNoLeadingSpace(ys, rest);
    ItemsCons(xs, rest);
    ConsStep(t, x, tail, ys, rest);
    HeadTail(xs);
  }

  lemma HeadTail(xs: seq<string>)
    requires |xs| >= 1
    ensures [xs[0]] + xs[1..] == xs
  {
  }

  lemma ItemsCons(xs: seq<string>, rest: string)
    requires |xs| >= 2
    ensures Items(xs) + "]" + rest == Quote(xs[0]) + ("," + (Items(xs[1..]) + "]" + rest))
  {
    var a, b := Quote(xs[0]), Items(xs[1..]);
    assert Items(xs) == a + "," + b;
    Assoc(a, ",", b, "]", rest);
  }

  lemma Assoc(a: string, c: string, b: string, d: string, e: string)
    ensures a + c + b + d + e == a + (c + (b + d + e))
  {
  }

  lemma TailNoLeadingSpace(ys: seq<string>, rest: string)
    requires |ys| >= 1
    ensures SkipSpace(Items(ys) + "]" + rest) == Items(ys) + "]" + rest
  {
    ItemsNoLeadingSpace(ys, "]" + rest);
    assert Items(ys) + ("]" + rest) == Items(ys) + "]" + rest;
  }

  lemma ConsStep(t: string, x: string, tail: string, xs: seq<string>, rest: string)
    requires t == Quote(x) + ("," + tail)
    requires SkipSpace(tail) == tail
    requires ParseElements(tail) == Some((xs, rest))
    ensures ParseElements(t) == Some(([x] + xs, rest))
  {
    ParseQuote(x, "," + tail);
    ElementsMore(t, x, tail, xs, rest);
  }

  lemma {:induction false} ParseItems(xs: seq<string>, rest: string)
    requires |xs| >= 1
    ensures ParseElements(Items(xs) + "]" + rest) == Some((xs, rest))
  {
    if |xs| == 1 {
      ParseItemsOne(xs, rest);
    } else {
      ParseItems(xs[1..], rest);
      ParseItemsCons(xs, rest);
    }
  }

  /** `JSON.parse(JSON.stringify(xs))` gives back `xs`. */
  lemma ParseStringify(xs: seq<string>)
    ensures Parse(Stringify(xs)) == Some(xs)
  {
    var t := Stringify(xs);
    assert SkipSpace(t) == t;
    if xs == [] {
      assert t[1..] == "]";
    } else {
      var body := Items(xs) + "]" + [];
      assert t[1..] == body;
      ItemsNoLeadingSpace(xs, "]" + []);
      assert Items(xs) + ("]" + []) == body;
      ParseItems(xs, []);
    }
  }

  /** Different arrays never stringify to the same text. */
  lemma StringifyInjective(xs: seq<string>, ys: seq<string>)
    requires Stringify(xs) == Stringify(ys)
    ensures xs == ys
  {
    ParseStringify(xs);
    ParseStringify(ys);
  }
}
