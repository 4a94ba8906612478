// Finding the markers of a draft, in order, to build its outgoing image spans.
module SticonMarkers {
  import opened Optional
  import opened Text
  import opened MessageSpans

  // A named image stands in the draft as "(name)", an unnamed one as "$".
  function MarkerOf(alt: CStr): Bytes {
    if alt != [] then [OPEN] + alt + [CLOSE] else [DOLLAR]
  }

  function Markers(alts: seq<CStr>): (markers: seq<Bytes>)
    ensures |markers| == |alts| && forall i | 0 <= i < |markers| :: markers[i] != []
  {
    seq(|alts|, i requires 0 <= i < |alts| => MarkerOf(alts[i]))
  }

  predicate MatchAt(text: CStr, p: nat, m: Bytes) {
    p + |m| <= |text| && text[p..p + |m|] == m
  }

  // The first match from scan on; the end of the text if there is none.
  function FirstMatch(text: CStr, scan: nat, m: Bytes): (p: nat)
    requires scan <= |text|
    ensures scan <= p <= |text|
    ensures p < |text| ==> MatchAt(text, p, m)
    ensures forall q | scan <= q < p :: !MatchAt(text, q, m)
    decreases |text| - scan
  {
    if scan == |text| || MatchAt(text, scan, m) then scan else FirstMatch(text, scan + 1, m)
  }

  function Spans(text: CStr, scan: nat, markers: seq<Bytes>): seq<Span>
    requires scan <= |text|
    decreases |markers|
  {
    if markers == [] then []
    else
      var p := FirstMatch(text, scan, markers[0]);
      [Span(p, p + |markers[0]|)] + Spans(text, if p < |text| then p + |markers[0]| else p, markers[1..])
  }

  method Find(text: CStr, from: nat, marker: Bytes) returns (scan: nat)
    requires from <= |text|
    ensures scan == FirstMatch(text, from, marker)
  {
    scan := from;
    while scan < |text| && !(|text| - scan >= |marker| && text[scan..scan + |marker|] == marker)
      invariant from <= scan <= |text|
      invariant FirstMatch(text, from, marker) == FirstMatch(text, scan, marker)
    {
      scan := scan + 1;
    }
  }

  // enil_line_build_sticon_resources
  method BuildSticonResources(text: CStr, alts: seq<CStr>) returns (spans: array<Span>)
    ensures fresh(spans) && spans[..] == Spans(text, 0, Markers(alts))
  {
    hide FirstMatch, Spans;
    var markers := Markers(alts);
    spans := new Span[|alts|](_ => Span(0, 0));
    var scan, i := 0, 0;
    while i < |alts|
      invariant 0 <= i <= |alts| && 0 <= scan <= |text|
      invariant Spans(text, 0, markers) == spans[..i] + Spans(text, scan, markers[i..])
    {
      var marker := MarkerOf(alts[i]);
      SpansMore(text, scan, markers, i);
      ghost var before := spans[..i];
      scan := Find(text, scan, marker);
      spans[i] := Span(scan, scan + |marker|);
      assert spans[..i + 1] == before + [Span(scan, scan + |marker|)];
      if scan < |text| {
        scan := scan + |marker|;
      }
      i := i + 1;
    }
    assert markers[i..] == [] && spans[..i] == spans[..];
    NoMoreSpans(text, scan);
  }

  lemma SpansMore(text: CStr, scan: nat, markers: seq<Bytes>, i: nat)
    requires i < |markers| && scan <= |text|
    ensures var p, m := FirstMatch(text, scan, markers[i]), markers[i];
      Spans(text, scan, markers[i..]) == [Span(p, p + |m|)] + Spans(text, if p < |text| then p + |m| else p, markers[i + 1..])
  {
    assert markers[i..][0] == markers[i] && markers[i..][1..] == markers[i + 1..];
  }

  lemma NoMoreSpans(text: CStr, scan: nat)
    requires scan <= |text|
    ensures Spans(text, scan, []) == []
  {
  }

  // ---- Completeness of the greedy scan ----

  // Positions at which the markers stand in order, without overlap.
  predicate Placed(text: CStr, from: nat, markers: seq<Bytes>, ps: seq<nat>)
    decreases |markers|
  {
    |ps| == |markers| &&
    (markers != [] ==>
       from <= ps[0] && MatchAt(text, ps[0], markers[0]) && Placed(text, ps[0] + |markers[0]|, markers[1..], ps[1..]))
  }

  ghost predicate Placeable(text: CStr, markers: seq<Bytes>) {
    exists ps :: Placed(text, 0, markers, ps)
  }

  predicate AllInside(text: CStr, spans: seq<Span>) {
    forall i | 0 <= i < |spans| :: spans[i].e <= |text|
  }

  lemma {:induction false} GreedyFinds(text: CStr, scan: nat, from: nat, markers: seq<Bytes>, ps: seq<nat>)
    requires scan <= from && scan <= |text| && Placed(text, from, markers, ps)
    requires forall i | 0 <= i < |markers| :: markers[i] != []
    ensures AllInside(text, Spans(text, scan, markers))
    decreases |markers|
  {
    if markers != [] {
      var p := FirstMatch(text, scan, markers[0]);
      assert p <= ps[0];
      GreedyFinds(text, p + |markers[0]|, ps[0] + |markers[0]|, markers[1..], ps[1..]);
      assert Spans(text, scan, markers)[1..] == Spans(text, p + |markers[0]|, markers[1..]);
      InsideParts(text, Spans(text, scan, markers));
    }
    hide FirstMatch, AllInside;
  }

  lemma {:induction false} InsideIsPlaced(text: CStr, scan: nat, markers: seq<Bytes>) returns (ps: seq<nat>)
    requires scan <= |text| && AllInside(text, Spans(text, scan, markers))
    requires forall i | 0 <= i < |markers| :: markers[i] != []
    ensures Placed(text, scan, markers, ps)
    ensures |Spans(text, scan, markers)| == |ps| && forall i | 0 <= i < |ps| :: Spans(text, scan, markers)[i].s == ps[i]
    decreases |markers|
  {
    if markers == [] {
      ps := [];
    } else {
      var spans := Spans(text, scan, markers);
      var p := FirstMatch(text, scan, markers[0]);
      assert spans[0].e <= |text|;
      assert spans[1..] == Spans(text, p + |markers[0]|, markers[1..]);
      forall i | 0 <= i < |spans[1..]| ensures spans[1..][i].e <= |text| {
        assert spans[1..][i] == spans[i + 1];
      }
      var rest := InsideIsPlaced(text, p + |markers[0]|, markers[1..]);
      ps := [p] + rest;
      assert ps[1..] == rest;
      forall i | 0 <= i < |ps| ensures spans[i].s == ps[i] {
        if i > 0 {
          assert spans[i] == spans[1..][i - 1];
        }
      }
    }
  }

  // The scan places all markers if and only if they can be placed at all, in
  // order and without overlap; otherwise some span ends past the text.
  lemma GreedyIsComplete(text: CStr, alts: seq<CStr>)
    ensures AllInside(text, Spans(text, 0, Markers(alts))) <==> Placeable(text, Markers(alts))
  {
    if AllInside(text, Spans(text, 0, Markers(alts))) {
      var ps := InsideIsPlaced(text, 0, Markers(alts));
      assert Placed(text, 0, Markers(alts), ps);
    }
    if Placeable(text, Markers(alts)) {
      var ps :| Placed(text, 0, Markers(alts), ps);
      GreedyFinds(text, 0, 0, Markers(alts), ps);
    }
  }

  // ---- The preview of a draft ----

  datatype Picture = Picture(path: CStr, width: int, height: int)

  // enil_message_text_html_for_sticons: the spans as byte offsets.
  function Rows(spans: seq<Span>, pictures: seq<Picture>): seq<Resource>
    requires |spans| == |pictures|
  {
    seq(|spans|, i requires 0 <= i < |spans| =>
      Resource(Some(spans[i].s as real), Some(spans[i].e as real), true, pictures[i].path, pictures[i].width, pictures[i].height))
  }

  lemma RowSpan(text: CStr, span: Span, picture: Picture)
    requires |text| <= INT_MAX && span.s < span.e
    ensures SpanOf(text, Resource(Some(span.s as real), Some(span.e as real), true, picture.path, picture.width, picture.height)) ==
      if MarkerAt(text, span.s, span.e) then Some(span) else None
  {
    hide IsMarker;
    assert (span.s as real).Floor == span.s && (span.e as real).Floor == span.e;
  }

  lemma {:induction false} RowsAccepted(text: CStr, scan: nat, markers: seq<Bytes>, pictures: seq<Picture>)
    requires |text| <= INT_MAX && scan <= |text| && |pictures| == |markers|
    requires forall i | 0 <= i < |markers| :: markers[i] != []
    ensures |Spans(text, scan, markers)| == |markers|
    ensures AllSpans(text, Rows(Spans(text, scan, markers), pictures), scan).Some? <==>
      AllInside(text, Spans(text, scan, markers)) && forall i | 0 <= i < |markers| :: IsMarker(markers[i])
    decreases |markers|
  {
    hide SpanOf, IsMarker;
    if markers != [] {
      var spans := Spans(text, scan, markers);
      var p, m := FirstMatch(text, scan, markers[0]), markers[0];
      var next := if p < |text| then p + |m| else p;
      RowsAccepted(text, next, markers[1..], pictures[1..]);
      assert spans[0] == Span(p, p + |m|) && spans[1..] == Spans(text, next, markers[1..]);
      assert |spans| == |markers|;
      var rows := Rows(spans, pictures);
      assert rows[1..] == Rows(spans[1..], pictures[1..]);
      RowSpan(text, spans[0], pictures[0]);
      InsideParts(text, spans);
      if p < |text| {
        assert MarkerAt(text, p, p + |m|) <==> IsMarker(m);
      }
      assert (forall i | 0 <= i < |markers| :: IsMarker(markers[i])) <==> IsMarker(m) && forall i | 0 <= i < |markers[1..]| :: IsMarker(markers[1..][i]) by {
        assert forall i | 0 < i < |markers| :: markers[i] == markers[1..][i - 1];
      }
    }
  }

  lemma InsideParts(text: CStr, spans: seq<Span>)
    requires spans != []
    ensures AllInside(text, spans) <==> spans[0].e <= |text| && AllInside(text, spans[1..])
  {
    if spans[0].e <= |text| && AllInside(text, spans[1..]) {
      forall i | 0 <= i < |spans| ensures spans[i].e <= |text| {
        if i > 0 {
          assert spans[i] == spans[1..][i - 1];
        }
      }
    }
    assert forall i | 0 <= i < |spans[1..]| :: spans[1..][i] == spans[i + 1];
  }

  // The draft is accepted exactly when all markers can be placed and every name is
  // free of parentheses and line ends.
  lemma DraftAcceptedIff(text: CStr, alts: seq<CStr>, pictures: seq<Picture>)
    requires |text| <= INT_MAX && |pictures| == |alts|
    ensures |Spans(text, 0, Markers(alts))| == |pictures|
    ensures AllSpans(text, Rows(Spans(text, 0, Markers(alts)), pictures), 0).Some? <==>
      Placeable(text, Markers(alts)) && forall i | 0 <= i < |alts| :: IsMarker(MarkerOf(alts[i]))
  {
    RowsAccepted(text, 0, Markers(alts), pictures);
    GreedyIsComplete(text, alts);
    hide AllSpans, Spans, Placeable, IsMarker, AllInside, MarkerOf;
    assert forall i | 0 <= i < |alts| :: Markers(alts)[i] == MarkerOf(alts[i]);
  }

  function Images(pieces: seq<Piece>): seq<Piece> {
    if pieces == [] then [] else (if pieces[0].Image? then [pieces[0]] else []) + Images(pieces[1..])
  }

  // The images of a draft, each with its marker for alternative text; a picture
  // without a path is none.
  function Pictured(markers: seq<Bytes>, pictures: seq<Picture>, jumbo: bool): seq<Piece>
    requires |markers| == |pictures|
  {
    if pictures == [] then []
    else
      var p := pictures[0];
      (if p.path == [] then []
       else [Image(if |p.path| > MAX_PATH then p.path[..MAX_PATH] else p.path, p.width, p.height, jumbo, markers[0])]) +
      Pictured(markers[1..], pictures[1..], jumbo)
  }

  predicate Marks(text: CStr, spans: seq<Span>, markers: seq<Bytes>) {
    && |spans| == |markers|
    && forall i | 0 <= i < |spans| :: spans[i].s < spans[i].e <= |text| && text[spans[i].s..spans[i].e] == markers[i]
  }

  lemma {:induction false} SpansMark(text: CStr, scan: nat, markers: seq<Bytes>)
    requires scan <= |text| && AllInside(text, Spans(text, scan, markers))
    requires forall i | 0 <= i < |markers| :: markers[i] != []
    ensures Marks(text, Spans(text, scan, markers), markers)
    decreases |markers|
  {
    if markers != [] {
      var spans := Spans(text, scan, markers);
      var p, m := FirstMatch(text, scan, markers[0]), markers[0];
      assert spans[0] == Span(p, p + |m|) && spans[0].e <= |text|;
      InsideParts(text, spans);
      assert spans[1..] == Spans(text, p + |m|, markers[1..]);
      SpansMark(text, p + |m|, markers[1..]);
      forall i | 0 <= i < |spans| ensures spans[i].s < spans[i].e <= |text| && text[spans[i].s..spans[i].e] == markers[i] {
        if i > 0 {
          assert spans[i] == spans[1..][i - 1] && markers[i] == markers[1..][i - 1];
        }
      }
    }
  }

  lemma {:induction false} PiecesPicture(text: CStr, spans: seq<Span>, pictures: seq<Picture>, markers: seq<Bytes>,
      cursor: nat, jumbo: bool)
    requires |spans| == |pictures| && Ordered(|text|, spans, cursor) && Marks(text, spans, markers)
    ensures Images(Pieces(text, Rows(spans, pictures), spans, cursor, jumbo)) == Pictured(markers, pictures, jumbo)
    decreases |spans|
  {
    var rows := Rows(spans, pictures);
    var pieces := Pieces(text, rows, spans, cursor, jumbo);
    if spans == [] {
      assert pieces[1..] == [] && Images([]) == [];
    } else {
      assert rows[1..] == Rows(spans[1..], pictures[1..]);
      assert forall i | 0 <= i < |spans[1..]| :: spans[1..][i] == spans[i + 1] && markers[1..][i] == markers[i + 1];
      PiecesPicture(text, spans[1..], pictures[1..], markers[1..], spans[0].e, jumbo);
      var rest := Pieces(text, rows[1..], spans[1..], spans[0].e, jumbo);
      assert pieces[1..][1..] == rest && pieces[0].Literal?;
      assert Images(pieces) == Images(pieces[1..]) == (if pieces[1].Image? then [pieces[1]] else []) + Images(rest);
    }
  }

  // What the preview of a draft shows: all its pictures in order, in place of their
  // markers, if the markers can be placed and every name is free of parentheses and
  // line ends; otherwise the draft as it is.
  lemma PreviewShowsImagesIff(text: CStr, alts: seq<CStr>, pictures: seq<Picture>) returns (jumbo: bool)
    requires |text| <= INT_MAX && |pictures| == |alts|
    ensures |Spans(text, 0, Markers(alts))| == |pictures|
    ensures
      var preview := Formatted(text, Rows(Spans(text, 0, Markers(alts)), pictures));
      if Placeable(text, Markers(alts)) && forall i | 0 <= i < |alts| :: IsMarker(MarkerOf(alts[i]))
      then Images(preview) == Pictured(Markers(alts), pictures, jumbo)
      else preview == [Literal(text)]
  {
    hide SpanOf, IsMarker, MarkerOf, Jumbo, Placeable;
    DraftAcceptedIff(text, alts, pictures);
    var markers := Markers(alts);
    var spans := Spans(text, 0, markers);
    var rows := Rows(spans, pictures);
    jumbo := false;
    if AllSpans(text, rows, 0).Some? {
      SpansInOrder(text, rows, 0);
      GreedyIsComplete(text, alts);
      SpansMark(text, 0, markers);
      RowsAreSpans(text, spans, pictures, markers);
      assert AllSpans(text, rows, 0).value == spans;
      jumbo := Jumbo(text, rows, spans, 0);
      PiecesPicture(text, spans, pictures, markers, 0, jumbo);
      hide AllSpans, Pieces, Spans, Markers;
      if spans == [] {
        NothingPictured(text, markers, pictures, jumbo);
      }
    }
  }

  lemma NothingPictured(text: CStr, markers: seq<Bytes>, pictures: seq<Picture>, jumbo: bool)
    requires |markers| == |pictures| == 0
    ensures Images([Literal(text)]) == Pictured(markers, pictures, jumbo)
  {
    assert [Literal(text)][1..] == [];
  }

  lemma RowsAreSpans(text: CStr, spans: seq<Span>, pictures: seq<Picture>, markers: seq<Bytes>)
    requires |text| <= INT_MAX && |spans| == |pictures| && Marks(text, spans, markers)
    requires AllSpans(text, Rows(spans, pictures), 0).Some?
    ensures AllSpans(text, Rows(spans, pictures), 0).value == spans
  {
    hide SpanOf, AllSpans;
    var rows := Rows(spans, pictures);
    SpansInOrder(text, rows, 0);
    var all := AllSpans(text, rows, 0).value;
    forall i | 0 <= i < |spans| ensures all[i] == spans[i] {
      SpansAre(text, rows, 0, i);
      RowSpan(text, spans[i], pictures[i]);
    }
  }

  // Some image is shown if and only if the draft is accepted and some picture has a path.
  lemma {:induction false} PicturedIff(markers: seq<Bytes>, pictures: seq<Picture>, jumbo: bool)
    requires |markers| == |pictures|
    ensures Pictured(markers, pictures, jumbo) != [] <==> exists i :: 0 <= i < |pictures| && pictures[i].path != []
    decreases |pictures|
  {
    if pictures != [] {
      PicturedIff(markers[1..], pictures[1..], jumbo);
      assert forall i | 0 <= i < |pictures[1..]| :: pictures[1..][i] == pictures[i + 1];
      if i :| 0 <= i < |pictures| && pictures[i].path != [] && i > 0 {
        assert pictures[1..][i - 1].path != [];
      }
    }
  }
}
