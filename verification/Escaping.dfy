// The growable text buffer and its HTML, script and URL escapers.
module Escaping {
  import opened Text

  const AMP := 38
  const LT := 60
  const GT := 62
  const QUOT := 34
  const BACKSLASH := 92
  const PERCENT := 37
  const SLASH := 47

  // "&amp;" "&lt;" "&gt;" "&quot;" "<br>"
  const AMP_TEXT: Bytes := [38, 97, 109, 112, 59]
  const LT_TEXT: Bytes := [38, 108, 116, 59]
  const GT_TEXT: Bytes := [38, 103, 116, 59]
  const QUOT_TEXT: Bytes := [38, 113, 117, 111, 116, 59]
  const BR_TEXT: Bytes := [60, 98, 114, 62]

  // ---- One byte at a time ----

  function HtmlByte(b: Byte, br: bool): Bytes {
    if b == AMP then AMP_TEXT
    else if b == LT then LT_TEXT
    else if b == GT then GT_TEXT
    else if b == QUOT then QUOT_TEXT
    else if b == LF && br then BR_TEXT
    else [b]
  }

  function JsByte(b: Byte): Bytes {
    if b == BACKSLASH then [BACKSLASH, BACKSLASH]
    else if b == QUOT then [BACKSLASH, QUOT]
    else if b == LF then [BACKSLASH, 110]
    else if b == CR then [BACKSLASH, 114]
    else [b]
  }

  predicate Unreserved(b: Byte) {
    65 <= b <= 90 || 97 <= b <= 122 || 48 <= b <= 57 || b == 45 || b == 95 || b == 46 || b == 126
  }

  function HexDigit(n: int): Byte
    requires 0 <= n < 16
  {
    if n < 10 then 48 + n else 55 + n
  }

  function UrlByte(b: Byte, keepSlash: bool): Bytes {
    var n: int := b;
    if Unreserved(b) || (keepSlash && b == SLASH) then [b] else [PERCENT, HexDigit(n / 16), HexDigit(n % 16)]
  }

  function Html(s: Bytes, br: bool): Bytes {
    if s == [] then [] else HtmlByte(s[0], br) + Html(s[1..], br)
  }

  function Js(s: Bytes): Bytes {
    if s == [] then [] else JsByte(s[0]) + Js(s[1..])
  }

  function Url(s: Bytes, keepSlash: bool): Bytes {
    if s == [] then [] else UrlByte(s[0], keepSlash) + Url(s[1..], keepSlash)
  }

  lemma {:induction false} HtmlParts(a: Bytes, b: Bytes, br: bool)
    ensures Html(a + b, br) == Html(a, br) + Html(b, br)
  {
    if a == [] {
      assert a + b == b;
    } else {
      assert (a + b)[1..] == a[1..] + b;
      HtmlParts(a[1..], b, br);
    }
  }

  lemma {:induction false} JsParts(a: Bytes, b: Bytes)
    ensures Js(a + b) == Js(a) + Js(b)
  {
    if a == [] {
      assert a + b == b;
    } else {
      assert (a + b)[1..] == a[1..] + b;
      JsParts(a[1..], b);
    }
  }

  lemma {:induction false} UrlParts(a: Bytes, b: Bytes, keepSlash: bool)
    ensures Url(a + b, keepSlash) == Url(a, keepSlash) + Url(b, keepSlash)
  {
    if a == [] {
      assert a + b == b;
    } else {
      assert (a + b)[1..] == a[1..] + b;
      UrlParts(a[1..], b, keepSlash);
    }
  }

  // ---- Reading the escaped text back ----

  // What a browser makes of escaped text: entities and line breaks decoded.
  function UnHtml(t: Bytes): Bytes {
    if t == [] then []
    else if AMP_TEXT <= t then [AMP] + UnHtml(t[5..])
    else if LT_TEXT <= t then [LT] + UnHtml(t[4..])
    else if GT_TEXT <= t then [GT] + UnHtml(t[4..])
    else if QUOT_TEXT <= t then [QUOT] + UnHtml(t[6..])
    else if BR_TEXT <= t then [LF] + UnHtml(t[4..])
    else [t[0]] + UnHtml(t[1..])
  }

  function UnJs(t: Bytes): Bytes {
    if t == [] then []
    else if t[0] == BACKSLASH && |t| > 1 then
      [if t[1] == 110 then LF else if t[1] == 114 then CR else t[1]] + UnJs(t[2..])
    else [t[0]] + UnJs(t[1..])
  }

  function HexValue(b: Byte): int {
    var n: int := b;
    if 48 <= n <= 57 then n - 48 else if 65 <= n <= 70 then n - 55 else 0
  }

  function UnUrl(t: Bytes): Bytes {
    if t == [] then []
    else if t[0] == PERCENT && |t| > 2 then [16 * HexValue(t[1]) + HexValue(t[2])] + UnUrl(t[3..])
    else [t[0]] + UnUrl(t[1..])
  }

  lemma UnHtmlByte(b: Byte, br: bool, rest: Bytes)
    ensures UnHtml(HtmlByte(b, br) + rest) == [b] + UnHtml(rest)
  {
    var e := HtmlByte(b, br);
    var t := e + rest;
    assert t[|e|..] == rest && t[..|e|] == e;
    if b == AMP || b == LT || b == GT || b == QUOT || (b == LF && br) {
      assert e <= t;
      assert t[0] == e[0] && t[1] == e[1] && t[2] == e[2];
    } else {
      assert t[0] == b;
    }
  }

  // Escaped display text shows exactly the original.
  lemma {:induction false} HtmlRoundTrip(s: Bytes, br: bool)
    ensures UnHtml(Html(s, br)) == s
  {
    if s != [] {
      HtmlRoundTrip(s[1..], br);
      UnHtmlByte(s[0], br, Html(s[1..], br));
    }
  }

  lemma {:induction false} JsRoundTrip(s: Bytes)
    ensures UnJs(Js(s)) == s
  {
    if s != [] {
      JsRoundTrip(s[1..]);
      var e := JsByte(s[0]);
      assert (e + Js(s[1..]))[|e|..] == Js(s[1..]);
    }
  }

  lemma {:induction false} UrlRoundTrip(s: Bytes, keepSlash: bool)
    ensures UnUrl(Url(s, keepSlash)) == s
  {
    if s != [] {
      UrlRoundTrip(s[1..], keepSlash);
      var e := UrlByte(s[0], keepSlash);
      assert (e + Url(s[1..], keepSlash))[|e|..] == Url(s[1..], keepSlash);
    }
  }

  // Inside a script string: every quote is escaped and there is no line end.
  predicate ScriptSafe(t: Bytes) {
    t == [] ||
    (if t[0] == BACKSLASH then |t| > 1 && t[1] != LF && t[1] != CR && ScriptSafe(t[2..])
     else t[0] != QUOT && t[0] != LF && t[0] != CR && ScriptSafe(t[1..]))
  }

  lemma {:induction false} JsIsScriptSafe(s: Bytes)
    ensures ScriptSafe(Js(s))
  {
    if s != [] {
      JsIsScriptSafe(s[1..]);
      var e := JsByte(s[0]);
      assert (e + Js(s[1..]))[|e|..] == Js(s[1..]);
    }
  }

  predicate Hex(b: Byte) {
    48 <= b <= 57 || 65 <= b <= 70
  }

  // Only unreserved bytes, percent triples, and slashes where they are kept.
  predicate UrlShaped(t: Bytes, keepSlash: bool) {
    t == [] ||
    (if t[0] == PERCENT then |t| > 2 && Hex(t[1]) && Hex(t[2]) && UrlShaped(t[3..], keepSlash)
     else (Unreserved(t[0]) || (keepSlash && t[0] == SLASH)) && UrlShaped(t[1..], keepSlash))
  }

  lemma {:induction false} UrlIsShaped(s: Bytes, keepSlash: bool)
    ensures UrlShaped(Url(s, keepSlash), keepSlash)
  {
    if s != [] {
      UrlIsShaped(s[1..], keepSlash);
      var e := UrlByte(s[0], keepSlash);
      assert (e + Url(s[1..], keepSlash))[|e|..] == Url(s[1..], keepSlash);
    }
  }

  // No markup can be opened from escaped text: the only '<' begin a line break.
  predicate MarkupFree(t: Bytes) {
    t == [] ||
    (if BR_TEXT <= t then MarkupFree(t[4..]) else t[0] != LT && t[0] != GT && t[0] != QUOT && MarkupFree(t[1..]))
  }

  lemma {:induction false} HtmlIsMarkupFree(s: Bytes, br: bool)
    ensures MarkupFree(Html(s, br))
  {
    if s != [] {
      HtmlIsMarkupFree(s[1..], br);
      PlainPrefix(HtmlByte(s[0], br), Html(s[1..], br));
    }
  }

  lemma {:induction false} PlainPrefix(e: Bytes, rest: Bytes)
    requires MarkupFree(rest)
    requires e == BR_TEXT || (LT !in e && GT !in e && QUOT !in e)
    ensures MarkupFree(e + rest)
    decreases |e|
  {
    var t := e + rest;
    if e == [] {
      assert t == rest;
    } else if e == BR_TEXT {
      assert t[4..] == rest;
    } else {
      PlainPrefix(e[1..], rest);
      assert t[1..] == e[1..] + rest && t[0] == e[0];
      assert BR_TEXT[0] == LT;
    }
  }

  // ---- The buffer ----

  class StrBuf {
    var buf: array<Byte>
    var len: nat

    ghost predicate Valid()
      reads this, buf
    {
      len < buf.Length && buf[len] == 0
    }

    ghost function Contents(): Bytes
      requires Valid()
      reads this, buf
    {
      buf[..len]
    }

    constructor ()
      ensures Valid() && fresh(buf) && Contents() == []
    {
      buf := new Byte[1024](_ => 0);
      len := 0;
    }

    method Grow(need: nat)
      requires Valid()
      modifies this`buf
      ensures Valid() && Contents() == old(Contents()) && len + need < buf.Length
      ensures buf == old(buf) || fresh(buf)
    {
      if len + need < buf.Length {
        return;
      }
      var capacity := 2 * buf.Length;
      while capacity <= len + need
        invariant capacity >= 2 * buf.Length > 0
        decreases len + need - capacity
      {
        capacity := 2 * capacity;
      }
      var grown := new Byte[capacity](_ => 0);
      var i := 0;
      while i < len
        modifies grown
        invariant 0 <= i <= len < grown.Length && grown[len] == 0
        invariant grown[..i] == buf[..i]
      {
        grown[i] := buf[i];
        i := i + 1;
      }
      buf := grown;
    }

    // Every append leaves room for the terminator and writes it.
    method Append(s: Bytes)
      requires Valid()
      modifies this, buf
      ensures Valid() && Contents() == old(Contents()) + s
      ensures buf == old(buf) || fresh(buf)
    {
      Grow(|s| + 1);
      ghost var before := buf[..len];
      var i := 0;
      while i < |s|
        modifies buf
        invariant 0 <= i <= |s|
        invariant buf[..len + i] == before + s[..i]
      {
        buf[len + i] := s[i];
        i := i + 1;
      }
      assert s[..i] == s;
      len := len + |s|;
      buf[len] := 0;
    }

    // esb_html_core: runs of plain bytes are flushed as they end.
    method AppendHtml(s: Bytes, br: bool)
      requires Valid()
      modifies this, buf
      ensures Valid() && Contents() == old(Contents()) + Html(s, br)
      ensures buf == old(buf) || fresh(buf)
    {
      hide Html, HtmlByte;
      ghost var start := Contents();
      HtmlNothing(br);
      var i, run := 0, 0;
      while i < |s|
        invariant 0 <= run <= i <= |s|
        invariant Valid() && (buf == old(buf) || fresh(buf))
        invariant Contents() + s[run..i] == start + Html(s[..i], br)
      {
        var e := HtmlByte(s[i], br);
        HtmlMore(s, i, br);
        ghost var before := Contents();
        assert before + s[run..i] + e == start + Html(s[..i + 1], br);
        if e != [s[i]] {
          if i > run {
            Append(s[run..i]);
          }
          assert Contents() == before + s[run..i];
          Append(e);
          run := i + 1;
        } else {
          assert s[run..i + 1] == s[run..i] + e;
          assert before + s[run..i + 1] == before + s[run..i] + e;
        }
        i := i + 1;
      }
      assert s[..i] == s && s[run..] == s[run..i];
      if |s| > run {
        Append(s[run..]);
      }
    }

    // esb_js
    method AppendJs(s: CStr)
      requires Valid()
      modifies this, buf
      ensures Valid() && Contents() == old(Contents()) + Js(s)
      ensures buf == old(buf) || fresh(buf)
    {
      hide Js, JsByte;
      ghost var start := Contents();
      JsNothing();
      var i, run := 0, 0;
      while i < |s|
        invariant 0 <= run <= i <= |s|
        invariant Valid() && (buf == old(buf) || fresh(buf))
        invariant Contents() + s[run..i] == start + Js(s[..i])
      {
        var e := JsByte(s[i]);
        JsMore(s, i);
        ghost var before := Contents();
        assert before + s[run..i] + e == start + Js(s[..i + 1]);
        if e != [s[i]] {
          if i > run {
            Append(s[run..i]);
          }
          assert Contents() == before + s[run..i];
          Append(e);
          run := i + 1;
        } else {
          assert s[run..i + 1] == s[run..i] + e;
          assert before + s[run..i + 1] == before + s[run..i] + e;
        }
        i := i + 1;
      }
      assert s[..i] == s && s[run..] == s[run..i];
      if |s| > run {
        Append(s[run..]);
      }
    }

    // esb_url_core
    method AppendUrl(s: CStr, keepSlash: bool)
      requires Valid()
      modifies this, buf
      ensures Valid() && Contents() == old(Contents()) + Url(s, keepSlash)
      ensures buf == old(buf) || fresh(buf)
    {
      hide Url, HexDigit;
      ghost var start := Contents();
      UrlNothing(keepSlash);
      var i := 0;
      while i < |s|
        invariant 0 <= i <= |s|
        invariant Valid() && (buf == old(buf) || fresh(buf))
        invariant Contents() == start + Url(s[..i], keepSlash)
      {
        var b := s[i];
        var n: int := b;
        UrlMore(s, i, keepSlash);
        if Unreserved(b) || (keepSlash && b == SLASH) {
          Append([b]);
        } else {
          Append([PERCENT, HexDigit(n / 16), HexDigit(n % 16)]);
        }
        i := i + 1;
      }
      assert s[..i] == s;
    }
  }

  lemma HtmlNothing(br: bool)
    ensures Html([], br) == []
  {
  }

  lemma HtmlMore(s: Bytes, i: nat, br: bool)
    requires i < |s|
    ensures Html(s[..i + 1], br) == Html(s[..i], br) + HtmlByte(s[i], br)
  {
    HtmlParts(s[..i], [s[i]], br);
    assert s[..i + 1] == s[..i] + [s[i]];
    assert [s[i]][1..] == [];
    assert Html([s[i]], br) == HtmlByte(s[i], br) + Html([], br);
    HtmlNothing(br);
  }

  lemma JsNothing()
    ensures Js([]) == []
  {
  }

  lemma JsMore(s: Bytes, i: nat)
    requires i < |s|
    ensures Js(s[..i + 1]) == Js(s[..i]) + JsByte(s[i])
  {
    JsParts(s[..i], [s[i]]);
    assert s[..i + 1] == s[..i] + [s[i]];
    assert [s[i]][1..] == [];
    assert Js([s[i]]) == JsByte(s[i]) + Js([]);
    JsNothing();
  }

  lemma UrlNothing(keepSlash: bool)
    ensures Url([], keepSlash) == []
  {
  }

  lemma UrlMore(s: Bytes, i: nat, keepSlash: bool)
    requires i < |s|
    ensures Url(s[..i + 1], keepSlash) == Url(s[..i], keepSlash) + UrlByte(s[i], keepSlash)
  {
    UrlParts(s[..i], [s[i]], keepSlash);
    assert s[..i + 1] == s[..i] + [s[i]];
    assert [s[i]][1..] == [];
    assert Url([s[i]], keepSlash) == UrlByte(s[i], keepSlash) + Url([], keepSlash);
    UrlNothing(keepSlash);
  }
}
