// Inline images in message text: every span is checked before any is replaced.
module MessageSpans {
  import opened Optional
  import opened Text
  import opened Escaping
  import opened Utf8

  const DOLLAR := 36
  const OPEN := 40
  const CLOSE := 41
  const INT_MAX := 0x7fff_ffff
  const MAX_PATH := 511

  // A stored span: JSON numbers S and E, the offsets' unit, and the image.
  datatype Resource = Resource(start: Option<real>, end: Option<real>, byteOffsets: bool, image: CStr, width: int, height: int)

  // How an image tag begins and ends around its alternative text.
  datatype Markup = Markup(open: CStr -> Bytes, close: (int, int, bool) -> Bytes)

  datatype Span = Span(s: nat, e: nat)

  // marker_span: "$", or text in one pair of parentheses on one line.
  predicate IsMarker(m: Bytes) {
    m == [DOLLAR] ||
    (|m| >= 3 && m[0] == OPEN && m[|m| - 1] == CLOSE &&
     forall i | 0 < i < |m| - 1 :: m[i] != OPEN && m[i] != CLOSE && m[i] != LF && m[i] != CR)
  }

  predicate MarkerAt(text: CStr, s: int, e: int) {
    0 <= s < e <= |text| && IsMarker(text[s..e])
  }

  // An offset that is a whole number within the C int range.
  function Offset(v: Option<real>): Option<nat> {
    if v.Some? && 0.0 <= v.value <= INT_MAX as real && v.value.Floor as real == v.value then Some(v.value.Floor) else None
  }

  // resource_span: UTF-16 offsets if they describe a marker, else byte offsets.
  function SpanOf(text: CStr, r: Resource): (span: Option<Span>)
    ensures span.Some? ==> MarkerAt(text, span.value.s, span.value.e)
  {
    var a, b := Offset(r.start), Offset(r.end);
    if a.None? || b.None? || b.value <= a.value then None
    else
      var s, e := BoundaryFrom(text, 0, 0, a.value), BoundaryFrom(text, 0, 0, b.value);
      if !r.byteOffsets && s.Some? && e.Some? && MarkerAt(text, s.value, e.value) then Some(Span(s.value, e.value))
      else if MarkerAt(text, a.value, b.value) then Some(Span(a.value, b.value))
      else None
  }

  method ResourceSpan(text: CStr, r: Resource) returns (span: Option<Span>)
    ensures span == SpanOf(text, r)
  {
    var a, b := Offset(r.start), Offset(r.end);
    if a.None? || b.None? || b.value <= a.value {
      return None;
    }
    if !r.byteOffsets {
      var s := Utf16Boundary(text, a.value);
      if s.Some? {
        var e := Utf16Boundary(text, b.value);
        if e.Some? {
          var ok := MarkerSpan(text, s.value, e.value);
          if ok {
            return Some(Span(s.value, e.value));
          }
        }
      }
    }
    var ok := MarkerSpan(text, a.value, b.value);
    span := if ok then Some(Span(a.value, b.value)) else None;
  }

  method MarkerSpan(text: CStr, s: nat, e: nat) returns (ok: bool)
    ensures ok <==> MarkerAt(text, s, e)
  {
    if s >= e || e > |text| {
      return false;
    }
    ghost var m := text[s..e];
    if e - s == 1 && text[s] == DOLLAR {
      assert m == [DOLLAR];
      return true;
    }
    if e - s < 3 || text[s] != OPEN || text[e - 1] != CLOSE {
      assert e - s == 1 ==> m[0] == text[s];
      assert e - s >= 3 ==> m[0] == text[s] && m[|m| - 1] == text[e - 1];
      return false;
    }
    assert m[0] == text[s] && m[|m| - 1] == text[e - 1];
    var i := s + 1;
    while i + 1 < e
      invariant s + 1 <= i <= e - 1
      invariant forall k | 0 < k < i - s :: m[k] != OPEN && m[k] != CLOSE && m[k] != LF && m[k] != CR
    {
      assert text[i] == m[i - s];
      if text[i] == OPEN || text[i] == CLOSE || text[i] == LF || text[i] == CR {
        return false;
      }
      i := i + 1;
    }
    ok := true;
  }

  // On well-formed text an accepted span, however its offsets were meant, starts
  // and ends on code-point boundaries.
  lemma SpanOnBoundaries(text: CStr, r: Resource)
    requires Valid(text) && SpanOf(text, r).Some?
    ensures var span := SpanOf(text, r).value;
      span.s < span.e <= |text| && Valid(text[..span.s]) && Valid(text[span.s..span.e]) && Valid(text[span.e..])
  {
    var span := SpanOf(text, r).value;
    MarkerCuts(text, span.s, span.e);
  }

  lemma MarkerCuts(text: CStr, s: nat, e: nat)
    requires Valid(text) && MarkerAt(text, s, e)
    ensures Valid(text[..s]) && Valid(text[s..e]) && Valid(text[e..])
  {
    hide Valid;
    var m := text[s..e];
    assert m[0] == text[s] && m[|m| - 1] == text[e - 1];
    AsciiIsBoundary(text, s);
    AsciiIsBoundary(text, e - 1);
    var rest: Bytes := text[s..];
    assert rest[|m| - 1] == text[e - 1];
    AsciiIsBoundary(rest, |m| - 1);
    assert rest[..|m|] == m;
    assert text[e - 1 + 1..] == text[e..];
  }

  // ---- The whole message ----

  // The spans of all resources, if each is accepted and none overlaps one before.
  function AllSpans(text: CStr, resources: seq<Resource>, cursor: nat): Option<seq<Span>> {
    if resources == [] then Some([])
    else
      match SpanOf(text, resources[0])
      case None => None
      case Some(span) =>
        if span.s < cursor then None
        else
          match AllSpans(text, resources[1..], span.e)
          case None => None
          case Some(rest) => Some([span] + rest)
  }

  // Each span starts where the one before it ends, or later, within the text.
  predicate Ordered(length: nat, spans: seq<Span>, cursor: nat) {
    if spans == [] then cursor <= length
    else cursor <= spans[0].s < spans[0].e <= length && Ordered(length, spans[1..], spans[0].e)
  }

  datatype Piece = Literal(text: Bytes) | Image(path: CStr, width: int, height: int, jumbo: bool, marker: Bytes)

  function PieceOf(r: Resource, marker: Bytes, jumbo: bool): Piece {
    if r.image == [] then Literal(marker)
    else Image(if |r.image| > MAX_PATH then r.image[..MAX_PATH] else r.image, r.width, r.height, jumbo, marker)
  }

  // The text between the spans, and an image or the marker itself at each.
  function Pieces(text: CStr, resources: seq<Resource>, spans: seq<Span>, cursor: nat, jumbo: bool): seq<Piece>
    requires |resources| == |spans| && Ordered(|text|, spans, cursor)
  {
    if spans == [] then [Literal(text[cursor..])]
    else
      [Literal(text[cursor..spans[0].s]), PieceOf(resources[0], text[spans[0].s..spans[0].e], jumbo)] +
      Pieces(text, resources[1..], spans[1..], spans[0].e, jumbo)
  }

  predicate Blank(s: Bytes) {
    forall i | 0 <= i < |s| :: s[i] == 32 || s[i] == 9 || s[i] == 10 || s[i] == 13
  }

  // Only images and blanks: they are shown large.
  predicate Jumbo(text: CStr, resources: seq<Resource>, spans: seq<Span>, cursor: nat)
    requires |resources| == |spans| && Ordered(|text|, spans, cursor)
  {
    if spans == [] then Blank(text[cursor..])
    else
      Blank(text[cursor..spans[0].s]) && resources[0].image != [] && Jumbo(text, resources[1..], spans[1..], spans[0].e)
  }

  function Rendered(m: Markup, p: Piece): Bytes {
    match p
    case Literal(text) => Html(text, true)
    case Image(path, width, height, jumbo, marker) => m.open(path) + Html(marker, true) + m.close(width, height, jumbo)
  }

  function RenderedAll(m: Markup, pieces: seq<Piece>): Bytes {
    if pieces == [] then [] else Rendered(m, pieces[0]) + RenderedAll(m, pieces[1..])
  }

  // format_text_html
  function Formatted(text: CStr, resources: seq<Resource>): seq<Piece> {
    match AllSpans(text, resources, 0)
    case None => [Literal(text)]
    case Some(spans) =>
      SpansInOrder(text, resources, 0);
      if spans == [] then [Literal(text)] else Pieces(text, resources, spans, 0, Jumbo(text, resources, spans, 0))
  }

  lemma {:induction false} SpansInOrder(text: CStr, resources: seq<Resource>, cursor: nat)
    requires cursor <= |text|
    ensures AllSpans(text, resources, cursor).Some? ==>
      var spans := AllSpans(text, resources, cursor).value;
      |spans| == |resources| && Ordered(|text|, spans, cursor)
  {
    hide BoundaryFrom, Offset, MarkerAt;
    if resources != [] && SpanOf(text, resources[0]).Some? {
      MarkerInside(text, resources[0]);
      SpansInOrder(text, resources[1..], SpanOf(text, resources[0]).value.e);
    }
  }

  lemma MarkerInside(text: CStr, r: Resource)
    requires SpanOf(text, r).Some?
    ensures SpanOf(text, r).value.s < SpanOf(text, r).value.e <= |text|
  {
  }

  // ---- Nothing of the text is lost ----

  // What is left when every image is replaced by its alternative text.
  function AltText(pieces: seq<Piece>): Bytes {
    if pieces == [] then []
    else (match pieces[0] case Literal(text) => Html(text, true) case Image(_, _, _, _, marker) => Html(marker, true)) + AltText(pieces[1..])
  }

  lemma {:induction false} PiecesKeepText(text: CStr, resources: seq<Resource>, spans: seq<Span>, cursor: nat, jumbo: bool)
    requires |resources| == |spans| && Ordered(|text|, spans, cursor)
    ensures cursor <= |text| && AltText(Pieces(text, resources, spans, cursor, jumbo)) == Html(text[cursor..], true)
    decreases |spans|
  {
    hide Html;
    var pieces := Pieces(text, resources, spans, cursor, jumbo);
    if spans == [] {
      assert pieces[1..] == [] && AltText([]) == [];
    } else {
      var span := spans[0];
      PiecesKeepText(text, resources[1..], spans[1..], span.e, jumbo);
      var rest := Pieces(text, resources[1..], spans[1..], span.e, jumbo);
      assert pieces[1..][1..] == rest;
      assert AltText(pieces) == Html(text[cursor..span.s], true) + (Html(text[span.s..span.e], true) + AltText(rest));
      HtmlParts(text[cursor..span.s], text[span.s..], true);
      HtmlParts(text[span.s..span.e], text[span.e..], true);
      assert text[cursor..] == text[cursor..span.s] + text[span.s..] && text[span.s..] == text[span.s..span.e] + text[span.e..];
    }
  }

  // For every text and every list of resources, images included by their
  // alternative text, exactly the escaped original is shown; reading it back
  // gives the original.
  lemma TextIsPreserved(text: CStr, resources: seq<Resource>)
    ensures AltText(Formatted(text, resources)) == Html(text, true)
    ensures UnHtml(AltText(Formatted(text, resources))) == text
  {
    HtmlRoundTrip(text, true);
    hide Html, UnHtml;
    SpansInOrder(text, resources, 0);
    if AllSpans(text, resources, 0).Some? && resources != [] {
      var spans := AllSpans(text, resources, 0).value;
      PiecesKeepText(text, resources, spans, 0, Jumbo(text, resources, spans, 0));
      assert text[0..] == text;
    } else {
      assert [Literal(text)][1..] == [] && AltText([]) == [];
    }
  }

  // One refused or overlapping range leaves the whole message literal.
  lemma AnyBadSpanMeansLiteral(text: CStr, resources: seq<Resource>, i: nat)
    requires i < |resources|
    requires SpanOf(text, resources[i]).None? ||
      exists j | 0 <= j < i :: SpanOf(text, resources[j]).Some? && SpanOf(text, resources[i]).value.s < SpanOf(text, resources[j]).value.e
    ensures Formatted(text, resources) == [Literal(text)]
  {
    hide SpanOf;
    if AllSpans(text, resources, 0).Some? {
      SpansInTurn(text, resources, 0, i);
      if j :| 0 <= j < i && SpanOf(text, resources[j]).Some? && SpanOf(text, resources[i]).value.s < SpanOf(text, resources[j]).value.e {
        SpansInTurn(text, resources, 0, j);
      }
    }
  }

  lemma {:induction false} SpansInTurn(text: CStr, resources: seq<Resource>, cursor: nat, i: nat)
    requires i < |resources| && AllSpans(text, resources, cursor).Some?
    ensures SpanOf(text, resources[i]).Some? && cursor <= SpanOf(text, resources[i]).value.s
    ensures forall j | i < j < |resources| :: SpanOf(text, resources[j]).Some? && SpanOf(text, resources[i]).value.e <= SpanOf(text, resources[j]).value.s
    decreases |resources|
  {
    hide BoundaryFrom, Offset, MarkerAt;
    var span := SpanOf(text, resources[0]).value;
    MarkerInside(text, resources[0]);
    if i == 0 {
      forall j | 0 < j < |resources| ensures SpanOf(text, resources[j]).Some? && span.e <= SpanOf(text, resources[j]).value.s {
        SpansInTurn(text, resources[1..], span.e, j - 1);
      }
    } else {
      SpansInTurn(text, resources[1..], span.e, i - 1);
      forall j | i < j < |resources|
        ensures SpanOf(text, resources[j]).Some? && SpanOf(text, resources[i]).value.e <= SpanOf(text, resources[j]).value.s
      {
        assert resources[j] == resources[1..][j - 1];
      }
    }
  }

  // ---- The formatter ----

  method BlankRun(text: Bytes) returns (blank: bool)
    ensures blank <==> Blank(text)
  {
    var i := 0;
    while i < |text|
      invariant 0 <= i <= |text|
      invariant forall k | 0 <= k < i :: text[k] == 32 || text[k] == 9 || text[k] == 10 || text[k] == 13
    {
      if text[i] != 32 && text[i] != 9 && text[i] != 10 && text[i] != 13 {
        return false;
      }
      i := i + 1;
    }
    blank := true;
  }

  // The first pass: are all spans good, and is there nothing but images?
  method CheckSpans(text: CStr, resources: seq<Resource>) returns (valid: bool, jumbo: bool)
    ensures valid <==> AllSpans(text, resources, 0).Some?
    ensures valid ==>
      var spans := AllSpans(text, resources, 0).value;
      |resources| == |spans| && Ordered(|text|, spans, 0) && (jumbo <==> Jumbo(text, resources, spans, 0))
  {
    hide SpanOf, Blank;
    SpansInOrder(text, resources, 0);
    ghost var all := AllSpans(text, resources, 0);
    var cursor, i := 0, 0;
    valid, jumbo := true, true;
    while i < |resources|
      invariant 0 <= i <= |resources| && 0 <= cursor <= |text|
      invariant all.Some? <==> AllSpans(text, resources[i..], cursor).Some?
      invariant all.Some? ==> |all.value| == |resources| && AllSpans(text, resources[i..], cursor).value == all.value[i..]
      invariant all.Some? ==> Ordered(|text|, all.value[i..], cursor)
      invariant all.Some? ==> (Jumbo(text, resources, all.value, 0) <==> jumbo && Jumbo(text, resources[i..], all.value[i..], cursor))
    {
      var r := resources[i];
      assert resources[i..][0] == r && resources[i..][1..] == resources[i + 1..];
      var span := ResourceSpan(text, r);
      if span.None? || span.value.s < cursor {
        return false, false;
      }
      MarkerInside(text, r);
      if all.Some? {
        assert all.value[i..][0] == span.value && all.value[i..][1..] == all.value[i + 1..];
      }
      var blank := BlankRun(text[cursor..span.value.s]);
      if !blank || r.image == [] {
        jumbo := false;
      }
      cursor := span.value.e;
      i := i + 1;
    }
    assert all.Some? ==> all.value[i..] == [];
    var blank := BlankRun(text[cursor..]);
    jumbo := jumbo && blank;
  }

  // The second pass: text, image, text, image, text.
  method FormatTextHtml(m: Markup, text: CStr, resources: seq<Resource>) returns (html: StrBuf)
    ensures fresh(html) && html.Valid() && html.Contents() == RenderedAll(m, Formatted(text, resources))
  {
    hide SpanOf, Jumbo, Html, Rendered;
    html := new StrBuf();
    SingleLiteral(m, text);
    var valid, jumbo := CheckSpans(text, resources);
    if !valid || resources == [] {
      html.AppendHtml(text, true);
      return;
    }
    ghost var spans := AllSpans(text, resources, 0).value;
    ghost var whole := Pieces(text, resources, spans, 0, jumbo);
    assert Formatted(text, resources) == whole;
    var cursor, i := 0, 0;
    hide AllSpans, Pieces, RenderedAll;
    while i < |resources|
      invariant 0 <= i <= |resources| && 0 <= cursor && Ordered(|text|, spans[i..], cursor)
      invariant fresh(html) && fresh(html.buf) && html.Valid()
      invariant html.Contents() + RenderedAll(m, Pieces(text, resources[i..], spans[i..], cursor, jumbo)) == RenderedAll(m, whole)
    {
      var r := resources[i];
      SpansAre(text, resources, 0, i);
      var span := ResourceSpan(text, r);
      var s, e := span.value.s, span.value.e;
      assert spans[i..][0] == span.value && spans[i..][1..] == spans[i + 1..];
      assert resources[i..][0] == r && resources[i..][1..] == resources[i + 1..];
      RenderStep(m, text, resources[i..], spans[i..], cursor, jumbo);
      AppendSpan(m, html, text[cursor..s], PieceOf(r, text[s..e], jumbo),
                 RenderedAll(m, Pieces(text, resources[i + 1..], spans[i + 1..], e, jumbo)));
      cursor := e;
      i := i + 1;
    }
    assert spans[i..] == [] && resources[i..] == [];
    LastPiece(m, text, cursor, jumbo);
    html.AppendHtml(text[cursor..], true);
  }

  lemma LastPiece(m: Markup, text: CStr, cursor: nat, jumbo: bool)
    requires cursor <= |text|
    ensures RenderedAll(m, Pieces(text, [], [], cursor, jumbo)) == Html(text[cursor..], true)
  {
    SingleLiteral(m, text[cursor..]);
  }

  method AppendSpan(m: Markup, html: StrBuf, before: Bytes, p: Piece, ghost rest: Bytes)
    requires html.Valid()
    modifies html, html.buf
    ensures html.Valid() && html.Contents() + rest == old(html.Contents()) + (Html(before, true) + Rendered(m, p) + rest)
    ensures html.buf == old(html.buf) || fresh(html.buf)
  {
    hide Html, Rendered;
    ghost var start := html.Contents();
    html.AppendHtml(before, true);
    AppendPiece(m, html, p);
    assert html.Contents() == start + Html(before, true) + Rendered(m, p);
  }

  // An image tag, or the marker itself where the image is missing.
  method AppendPiece(m: Markup, html: StrBuf, p: Piece)
    requires html.Valid()
    modifies html, html.buf
    ensures html.Valid() && html.Contents() == old(html.Contents()) + Rendered(m, p)
    ensures html.buf == old(html.buf) || fresh(html.buf)
  {
    hide Html;
    match p {
      case Literal(text) => html.AppendHtml(text, true);
      case Image(path, width, height, jumbo, marker) =>
        html.Append(m.open(path));
        html.AppendHtml(marker, true);
        html.Append(m.close(width, height, jumbo));
    }
  }

  lemma SingleLiteral(m: Markup, text: Bytes)
    ensures RenderedAll(m, [Literal(text)]) == Html(text, true)
  {
    assert [Literal(text)][1..] == [] && RenderedAll(m, []) == [];
  }

  lemma RenderStep(m: Markup, text: CStr, resources: seq<Resource>, spans: seq<Span>, cursor: nat, jumbo: bool)
    requires |resources| == |spans| > 0 && Ordered(|text|, spans, cursor)
    ensures RenderedAll(m, Pieces(text, resources, spans, cursor, jumbo)) ==
      Html(text[cursor..spans[0].s], true) + Rendered(m, PieceOf(resources[0], text[spans[0].s..spans[0].e], jumbo)) +
      RenderedAll(m, Pieces(text, resources[1..], spans[1..], spans[0].e, jumbo))
  {
    hide Html;
    var pieces := Pieces(text, resources, spans, cursor, jumbo);
    var rest := Pieces(text, resources[1..], spans[1..], spans[0].e, jumbo);
    assert pieces[1..][1..] == rest;
    hide Pieces;
    assert RenderedAll(m, pieces[1..]) == Rendered(m, pieces[1]) + RenderedAll(m, rest);
  }

  lemma {:induction false} SpansAre(text: CStr, resources: seq<Resource>, cursor: nat, i: nat)
    requires i < |resources| && AllSpans(text, resources, cursor).Some?
    ensures |AllSpans(text, resources, cursor).value| == |resources|
    ensures SpanOf(text, resources[i]) == Some(AllSpans(text, resources, cursor).value[i])
    decreases |resources|
  {
    hide SpanOf;
    var span := SpanOf(text, resources[0]).value;
    if i > 0 {
      SpansAre(text, resources[1..], span.e, i - 1);
    } else if |resources| > 1 {
      SpansAre(text, resources[1..], span.e, 0);
    }
  }
}
