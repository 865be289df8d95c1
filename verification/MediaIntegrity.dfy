/**
 The ISO base media verifier of adapters/media_integrity.py: a walk over length-prefixed
 boxes with three size forms (section 4.2 of ISO/IEC 14496-12) and a recursive search for
 a video handler (section 8.4.3).

 `Accepts` is the verdict of the walk on arbitrary bytes. Module BoxTree holds the independent
 specification, a printer that writes a box forest to bytes in any mix of size forms.
 */
module MediaIntegrity {
  import opened Common

  type byte = b: int | 0 <= b < 256
  type Bytes = seq<byte>

  const FTYP: Bytes := [0x66, 0x74, 0x79, 0x70]
  const MOOV: Bytes := [0x6d, 0x6f, 0x6f, 0x76]
  const TRAK: Bytes := [0x74, 0x72, 0x61, 0x6b]
  const MDIA: Bytes := [0x6d, 0x64, 0x69, 0x61]
  const MINF: Bytes := [0x6d, 0x69, 0x6e, 0x66]
  const STBL: Bytes := [0x73, 0x74, 0x62, 0x6c]
  const HDLR: Bytes := [0x68, 0x64, 0x6c, 0x72]
  const VIDE: Bytes := [0x76, 0x69, 0x64, 0x65]

  /** A four-character box type, with the codes the verifier names singled out. */
  datatype Kind = Ftyp | Moov | Trak | Mdia | Minf | Stbl | Hdlr | Other(code: Bytes)

  function KindOf(code: Bytes): Kind {
    if code == FTYP then Ftyp else if code == MOOV then Moov else if code == TRAK then Trak
    else if code == MDIA then Mdia else if code == MINF then Minf else if code == STBL then Stbl
    else if code == HDLR then Hdlr else Other(code)
  }

  predicate IsContainer(kind: Kind) {
    kind.Trak? || kind.Mdia? || kind.Minf? || kind.Stbl? || kind.Moov?
  }

  /** `int.from_bytes(s, "big")` */
  function BigEndian(s: Bytes): nat {
    if s == [] then 0 else BigEndian(s[..|s| - 1]) * 256 + s[|s| - 1]
  }

  // ---------------------------------------------------------------- the walk

  /** One box header as the walk reads it; `declared` is false for the to-end size form. */
  datatype Header = Header(kind: Kind, header: nat, size: nat, declared: bool)

  /** The header at `offset`, or None when the walk refuses the box. */
  function ReadHeader(data: Bytes, offset: nat, end: nat): (r: Option<Header>)
    requires offset + 8 <= end <= |data|
    ensures r.Some? ==> 8 <= r.value.header <= r.value.size <= end - offset
  {
    var field := BigEndian(data[offset..offset + 4]);
    var kind := KindOf(data[offset + 4..offset + 8]);
    if field == 1 && offset + 16 > end then None
    else
      var header := if field == 1 then 16 else 8;
      var size := if field == 1 then BigEndian(data[offset + 8..offset + 16])
                  else if field == 0 then end - offset else field;
      if size < header || offset + size > end then None
      else Some(Header(kind, header, size, field != 0))
  }

  predicate IsVideoHandler(payload: Bytes) {
    |payload| >= 12 && payload[8..12] == VIDE
  }

  /** Some box reached from `[offset, end)` through containers is a `vide` handler. */
  predicate HasHandler(data: Bytes, offset: nat, end: nat)
    requires offset <= end <= |data|
    decreases end - offset
  {
    offset + 8 <= end &&
    var h := ReadHeader(data, offset, end);
    h.Some? &&
    ((if h.value.kind == Hdlr then IsVideoHandler(data[offset + h.value.header..offset + h.value.size])
      else IsContainer(h.value.kind) && HasHandler(data, offset + h.value.header, offset + h.value.size))
     || HasHandler(data, offset + h.value.size, end))
  }

  /** A box with its position. */
  datatype Span = Span(start: nat, box: Header)

  /** The boxes of `[offset, end)`, or None when they do not tile it. */
  function Boxes(data: Bytes, offset: nat, end: nat): (r: Option<seq<Span>>)
    requires offset <= end <= |data|
    decreases end - offset
  {
    if offset + 8 > end then if offset == end then Some([]) else None
    else
      var h := ReadHeader(data, offset, end);
      if h.None? then None
      else
        var rest := Boxes(data, offset + h.value.size, end);
        if rest.None? then None else Some([Span(offset, h.value)] + rest.value)
  }

  function LastMoov(spans: seq<Span>): (r: Option<Span>)
    ensures r.Some? ==> r.value in spans && r.value.box.kind == Moov
  {
    if spans == [] then None
    else if spans[|spans| - 1].box.kind == Moov then Some(spans[|spans| - 1])
    else LastMoov(spans[..|spans| - 1])
  }

  predicate Inside(data: Bytes, s: Span) {
    s.box.header <= s.box.size && s.start + s.box.size <= |data|
  }

  predicate IsVideoTrack(data: Bytes, s: Span)
    requires Inside(data, s)
  {
    s.box.kind == Trak && HasHandler(data, s.start + s.box.header, s.start + s.box.size)
  }

  /** Some span is a video track. */
  predicate AnyTrack(data: Bytes, spans: seq<Span>) {
    exists k :: 0 <= k < |spans| && Inside(data, spans[k]) && IsVideoTrack(data, spans[k])
  }

  /** The children of the movie box tile it and one of them is a video track. */
  predicate IsVideoMovie(data: Bytes, moov: Span)
    requires Inside(data, moov)
  {
    var kids := Boxes(data, moov.start + moov.box.header, moov.start + moov.box.size);
    kids.Some? && AnyTrack(data, kids.value)
  }

  /** The verdict of `_verify_mp4` on arbitrary bytes. */
  predicate Accepts(data: Bytes) {
    |data| >= 16 && KindOf(data[4..8]) == Ftyp &&
    var top := Boxes(data, 0, |data|);
    top.Some? &&
    var moov := LastMoov(top.value);
    moov.Some? && Inside(data, moov.value) && IsVideoMovie(data, moov.value)
  }

  // ------------------------------------------------------- the imperative code

  /** The header decoding that opens each of the three loops. */
  method DecodeHeader(data: Bytes, offset: nat, end: nat) returns (ok: bool, kind: Kind, header: nat, size: nat)
    requires offset + 8 <= end <= |data|
    ensures ok == ReadHeader(data, offset, end).Some?
    ensures ok ==>
      var h := ReadHeader(data, offset, end).value;
      kind == h.kind && header == h.header && size == h.size
  {
    size := BigEndian(data[offset..offset + 4]);
    kind := KindOf(data[offset + 4..offset + 8]);
    header := 8;
    if size == 1 {
      if offset + 16 > end { return false, kind, header, size; }
      size := BigEndian(data[offset + 8..offset + 16]);
      header := 16;
    } else if size == 0 {
      size := end - offset;
    }
    ok := !(size < header || offset + size > end);
  }

  method BoxTreeHasVideoHandler(data: Bytes, start: nat, end: nat) returns (found: bool)
    requires start <= end <= |data|
    ensures found == HasHandler(data, start, end)
    decreases end - start
  {
    hide ReadHeader;
    var offset := start;
    while offset + 8 <= end
      invariant start <= offset <= end
      invariant HasHandler(data, start, end) == HasHandler(data, offset, end)
      decreases end - offset
    {
      var ok, kind, header, size := DecodeHeader(data, offset, end);
      if !ok { return false; }
      if kind == Hdlr {
        if IsVideoHandler(data[offset + header..offset + size]) { return true; }
      } else if IsContainer(kind) {
        var inner := BoxTreeHasVideoHandler(data, offset + header, offset + size);
        if inner { return true; }
      }
      offset := offset + size;
    }
    return false;
  }

  /** `rest` continues a walk that has already produced `seen`. */
  function Continue(seen: seq<Span>, rest: Option<seq<Span>>): Option<seq<Span>> {
    if rest.None? then None else Some(seen + rest.value)
  }

  lemma ContinueNothing(rest: Option<seq<Span>>)
    ensures Continue([], rest) == rest
  {
    if rest.Some? { assert [] + rest.value == rest.value; }
  }

  /** One step of a walk: the box at `offset` joins the boxes already seen. */
  lemma ContinueStep(data: Bytes, seen: seq<Span>, offset: nat, end: nat)
    requires offset + 8 <= end <= |data| && ReadHeader(data, offset, end).Some?
    ensures var h := ReadHeader(data, offset, end).value;
      Continue(seen, Boxes(data, offset, end))
        == Continue(seen + [Span(offset, h)], Boxes(data, offset + h.size, end))
  {
    var h := ReadHeader(data, offset, end).value;
    var rest := Boxes(data, offset + h.size, end);
    if rest.Some? {
      assert seen + ([Span(offset, h)] + rest.value) == (seen + [Span(offset, h)]) + rest.value;
    }
  }

  function Range(s: Option<Span>): Option<(nat, nat)> {
    if s.None? then None else Some((s.value.start + s.value.box.header, s.value.start + s.value.box.size))
  }

  lemma LastMoovSnoc(seen: seq<Span>, s: Span)
    ensures LastMoov(seen + [s]) == if s.box.kind == Moov then Some(s) else LastMoov(seen)
  {
    assert (seen + [s])[..|seen|] == seen;
  }

  /** The top-level loop: does it reach the end, and where is the last `moov`? */
  method WalkTopLevel(data: Bytes) returns (ok: bool, moov: Option<(nat, nat)>)
    ensures ok == Boxes(data, 0, |data|).Some?
    ensures ok ==> moov == Range(LastMoov(Boxes(data, 0, |data|).value))
    ensures moov.Some? ==> moov.value.0 <= moov.value.1 <= |data|
  {
    hide ReadHeader;
    var total := |data|;
    var offset := 0;
    moov := None;
    ghost var seen: seq<Span> := [];
    ContinueNothing(Boxes(data, 0, total));
    while offset + 8 <= total
      invariant offset <= total
      invariant Boxes(data, 0, total) == Continue(seen, Boxes(data, offset, total))
      invariant moov == Range(LastMoov(seen))
      invariant moov.Some? ==> moov.value.0 <= moov.value.1 <= |data|
      decreases total - offset
    {
      var good, kind, header, size := DecodeHeader(data, offset, total);
      if !good { return false, moov; }
      if kind == Moov {
        moov := Some((offset + header, offset + size));
      }
      ghost var span := Span(offset, ReadHeader(data, offset, total).value);
      ContinueStep(data, seen, offset, total);
      LastMoovSnoc(seen, span);
      seen := seen + [span];
      offset := offset + size;
    }
    assert Boxes(data, offset, total).Some? ==> seen + [] == seen;
    return offset == total, moov;
  }

  /** The loop over the children of `moov`. */
  method WalkMovie(data: Bytes, start: nat, end: nat) returns (ok: bool)
    requires start <= end <= |data|
    ensures ok == (Boxes(data, start, end).Some? && AnyTrack(data, Boxes(data, start, end).value))
  {
    hide ReadHeader, HasHandler;
    var hasTrak, hasVideoHandler := false, false;
    var child := start;
    ghost var seen: seq<Span> := [];
    ContinueNothing(Boxes(data, start, end));
    while child + 8 <= end
      invariant start <= child <= end
      invariant Boxes(data, start, end) == Continue(seen, Boxes(data, child, end))
      invariant hasVideoHandler ==> hasTrak
      invariant hasVideoHandler == AnyTrack(data, seen)
      decreases end - child
    {
      var good, kind, header, size := DecodeHeader(data, child, end);
      if !good { return false; }
      ghost var span := Span(child, ReadHeader(data, child, end).value);
      AnyTrackSnoc(data, seen, span);
      ContinueStep(data, seen, child, end);
      if kind == Trak {
        hasTrak := true;
        var inner := BoxTreeHasVideoHandler(data, child + header, child + size);
        if inner { hasVideoHandler := true; }
      }
      seen := seen + [span];
      child := child + size;
    }
    assert Boxes(data, child, end).Some? ==> seen + [] == seen;
    return child == end && hasTrak && hasVideoHandler;
  }

  lemma AnyTrackSnoc(data: Bytes, seen: seq<Span>, span: Span)
    requires Inside(data, span)
    ensures AnyTrack(data, seen + [span]) == (AnyTrack(data, seen) || IsVideoTrack(data, span))
  {
    var all := seen + [span];
    if AnyTrack(data, seen) {
      var k :| 0 <= k < |seen| && Inside(data, seen[k]) && IsVideoTrack(data, seen[k]);
      assert all[k] == seen[k];
    }
    if IsVideoTrack(data, span) { assert all[|seen|] == span; }
    if AnyTrack(data, all) {
      var k :| 0 <= k < |all| && Inside(data, all[k]) && IsVideoTrack(data, all[k]);
      assert k < |seen| ==> seen[k] == all[k];
    }
  }

  /** `_verify_mp4`: true exactly when the payload is accepted. */
  method VerifyMp4(data: Bytes) returns (ok: bool)
    ensures ok == Accepts(data)
  {
    hide Boxes, AnyTrack, LastMoov, ReadHeader;
    if |data| < 16 || KindOf(data[4..8]) != Ftyp { return false; }
    var walked, moov := WalkTopLevel(data);
    if !walked { return false; }
    if moov.None? { return false; }
    var start, end := moov.value.0, moov.value.1;
    ok := WalkMovie(data, start, end);
    ghost var top := Boxes(data, 0, |data|).value;
    BoxesTile(data, 0, |data|);
    assert Inside(data, LastMoov(top).value);
  }

  // ------------------------------------------- soundness: accepted bytes are tiled

  /** The bytes at the span's position declare exactly this box. */
  predicate Declares(data: Bytes, s: Span, end: nat)
    requires end <= |data|
  {
    s.start + 8 <= end && ReadHeader(data, s.start, end) == Some(s.box)
  }

  /** `spans` are declared by the bytes, adjacent, and together exactly cover `[start, end)`. */
  ghost predicate Tile(data: Bytes, spans: seq<Span>, start: nat, end: nat)
    requires start <= end <= |data|
  {
    && (forall k :: 0 <= k < |spans| ==> Declares(data, spans[k], end))
    && (spans == [] ==> start == end)
    && (spans != [] ==>
          && spans[0].start == start
          && spans[|spans| - 1].start + spans[|spans| - 1].box.size == end)
    && (forall k :: 0 < k < |spans| ==> spans[k].start == spans[k - 1].start + spans[k - 1].box.size)
  }

  /** Whatever the walk returns tiles the range. */
  lemma {:induction false} BoxesTile(data: Bytes, start: nat, end: nat)
    requires start <= end <= |data|
    ensures Boxes(data, start, end).Some? ==>
              && Tile(data, Boxes(data, start, end).value, start, end)
              && forall s :: s in Boxes(data, start, end).value ==> Inside(data, s)
    decreases end - start
  {
    hide ReadHeader;
    if start + 8 <= end && Boxes(data, start, end).Some? {
      BoxesTile(data, start + ReadHeader(data, start, end).value.size, end);
    }
  }

  /** And a tiling is found whenever there is one: it is unique. */
  lemma {:induction false} TilingIsFound(data: Bytes, spans: seq<Span>, start: nat, end: nat)
    requires start <= end <= |data|
    requires Tile(data, spans, start, end)
    ensures Boxes(data, start, end) == Some(spans)
    decreases |spans|
  {
    hide ReadHeader;
    if spans != [] {
      var next := start + spans[0].box.size;
      TailTiles(data, spans, start, end);
      TilingIsFound(data, spans[1..], next, end);
      hide Tile;
      assert spans == [spans[0]] + spans[1..];
    }
  }

  lemma TailTiles(data: Bytes, spans: seq<Span>, start: nat, end: nat)
    requires start <= end <= |data| && Tile(data, spans, start, end) && spans != []
    ensures var next := start + spans[0].box.size;
      && next <= end && Tile(data, spans[1..], next, end)
      && start + 8 <= end && ReadHeader(data, start, end) == Some(spans[0].box) && spans[0].start == start
  {
    hide ReadHeader;
    assert Declares(data, spans[0], end);
    if |spans| > 1 {
      assert spans[1].start == start + spans[0].box.size;
      EndsBefore(data, spans, 1, start, end);
    }
  }

  lemma EndsBefore(data: Bytes, spans: seq<Span>, k: nat, start: nat, end: nat)
    requires start <= end <= |data| && Tile(data, spans, start, end) && k < |spans|
    ensures spans[k].start <= end
  {
    assert Declares(data, spans[k], end);
  }

  /** `spans` and `kids` are tilings that show why a file is a movie with a video track. */
  ghost predicate ShowsVideo(data: Bytes, spans: seq<Span>, m: nat, kids: seq<Span>) {
    && Tile(data, spans, 0, |data|) && spans != [] && spans[0].box.kind == Ftyp
    && m < |spans| && spans[m].box.kind == Moov && Inside(data, spans[m])
    && (forall k :: m < k < |spans| ==> spans[k].box.kind != Moov)
    && Tile(data, kids, spans[m].start + spans[m].box.header, spans[m].start + spans[m].box.size)
    && AnyTrack(data, kids)
  }

  /** Accepted bytes split into declared boxes, first `ftyp`, and the last `moov` splits likewise. */
  lemma AcceptedIsTiled(data: Bytes) returns (spans: seq<Span>, m: nat, kids: seq<Span>)
    requires Accepts(data)
    ensures ShowsVideo(data, spans, m, kids)
  {
    hide HasHandler, AnyTrack, ReadHeader, Boxes, Tile, KindOf, LastMoov;
    FirstKind(data);
    spans := Boxes(data, 0, |data|).value;
    BoxesTile(data, 0, |data|);
    m := LastMoovIsLast(spans);
    var start, end := spans[m].start + spans[m].box.header, spans[m].start + spans[m].box.size;
    kids := Boxes(data, start, end).value;
    BoxesTile(data, start, end);
  }

  lemma {:induction false} LastMoovIsLast(spans: seq<Span>) returns (m: nat)
    requires LastMoov(spans).Some?
    ensures m < |spans| && LastMoov(spans) == Some(spans[m])
    ensures forall k :: m < k < |spans| ==> spans[k].box.kind != Moov
  {
    var n := |spans| - 1;
    if spans[n].box.kind == Moov {
      m := n;
    } else {
      m := LastMoovIsLast(spans[..n]);
    }
  }

  lemma FirstKind(data: Bytes)
    requires |data| >= 8 && Boxes(data, 0, |data|).Some?
    ensures var spans := Boxes(data, 0, |data|).value;
      spans != [] && spans[0].box.kind == KindOf(data[4..8])
  {
    hide KindOf, BigEndian;
  }

  // ---------------------------------------------------- truncation is always seen

  /** A header that fits in a prefix reads the same there, unless it runs to the end. */
  lemma HeaderInPrefix(data: Bytes, cut: nat, offset: nat, end: nat)
    requires offset + 8 <= cut <= |data| && cut <= end <= |data|
    ensures var whole, part := ReadHeader(data, offset, end), ReadHeader(data[..cut], offset, cut);
      whole.Some? && whole.value.declared ==>
        if offset + whole.value.size <= cut then part == whole else part.None?
    ensures var whole, part := ReadHeader(data, offset, end), ReadHeader(data[..cut], offset, cut);
      whole.Some? && !whole.value.declared ==>
        part == Some(whole.value.(size := cut - offset))
  {
    var part := data[..cut];
    assert part[offset..offset + 4] == data[offset..offset + 4];
    assert part[offset + 4..offset + 8] == data[offset + 4..offset + 8];
    if offset + 16 <= cut { assert part[offset + 8..offset + 16] == data[offset + 8..offset + 16]; }
    hide BigEndian, KindOf;
  }

  /** A box that runs to the end of the file is the last one. */
  lemma ToEndIsLast(data: Bytes, offset: nat)
    requires offset + 8 <= |data| && Boxes(data, offset, |data|).Some?
    ensures !Boxes(data, offset, |data|).value[0].box.declared ==> |Boxes(data, offset, |data|).value| == 1
  {
    hide BigEndian, KindOf;
  }

  /** Cutting strictly inside a declared box leaves no tiling of what remains. */
  lemma {:induction false} CutWalk(data: Bytes, offset: nat, k: nat, cut: nat)
    requires offset <= |data| && Boxes(data, offset, |data|).Some?
    requires k < |Boxes(data, offset, |data|).value|
    requires var s := Boxes(data, offset, |data|).value[k];
      s.box.declared && s.start < cut < s.start + s.box.size && offset <= cut <= |data|
    ensures Boxes(data[..cut], offset, cut).None?
    decreases k
  {
    hide ReadHeader;
    var spans := Boxes(data, offset, |data|).value;
    BoxesTile(data, offset, |data|);
    if offset + 8 <= cut {
      HeaderInPrefix(data, cut, offset, |data|);
      if k > 0 {
        ToEndIsLast(data, offset);
        var next := offset + spans[0].box.size;
        assert Boxes(data, next, |data|).value == spans[1..];
        StartsAfter(data, spans, k, offset, |data|);
        CutWalk(data, next, k - 1, cut);
      }
    } else if k > 0 {
      StartsAfter(data, spans, k, offset, |data|);
    }
  }

  lemma {:induction false} StartsAfter(data: Bytes, spans: seq<Span>, k: nat, start: nat, end: nat)
    requires start <= end <= |data| && Tile(data, spans, start, end) && 0 < k < |spans|
    ensures spans[k].start >= start + spans[0].box.size
  {
    hide ReadHeader;
    if k > 1 {
      StartsAfter(data, spans, k - 1, start, end);
      assert Declares(data, spans[k - 1], end);
    }
  }

  /**
   A file that is tiled by boxes (every accepted file is), cut anywhere strictly inside a top-level
   box with a declared size, in its header, its 64-bit size or its body, is refused.
   */
  lemma CutIsRejected(data: Bytes, spans: seq<Span>, k: nat, cut: nat)
    requires Boxes(data, 0, |data|) == Some(spans) && k < |spans|
    requires spans[k].box.declared && spans[k].start < cut < spans[k].start + spans[k].box.size
    ensures cut <= |data| && !Accepts(data[..cut])
  {
    BoxesTile(data, 0, |data|);
    CutWalk(data, 0, k, cut);
  }

  lemma SameHeader(data: Bytes, cut: nat, start: nat, end: nat)
    requires start + 8 <= end <= cut <= |data|
    ensures ReadHeader(data[..cut], start, end) == ReadHeader(data, start, end)
  {
    var part := data[..cut];
    assert part[start..start + 4] == data[start..start + 4];
    assert part[start + 4..start + 8] == data[start + 4..start + 8];
    if start + 16 <= end { assert part[start + 8..start + 16] == data[start + 8..start + 16]; }
    hide BigEndian, KindOf;
  }

  /** A range's verdicts depend only on the bytes before its end. */
  lemma {:induction false} SameInPrefix(data: Bytes, cut: nat, start: nat, end: nat)
    requires start <= end <= cut <= |data|
    ensures HasHandler(data[..cut], start, end) == HasHandler(data, start, end)
    ensures Boxes(data[..cut], start, end) == Boxes(data, start, end)
    decreases end - start
  {
    hide ReadHeader, IsVideoHandler;
    if start + 8 <= end {
      SameHeader(data, cut, start, end);
      var h := ReadHeader(data, start, end);
      if h.Some? {
        var inner, next := start + h.value.header, start + h.value.size;
        assert data[..cut][inner..next] == data[inner..next];
        SameInPrefix(data, cut, inner, next);
        SameInPrefix(data, cut, next, end);
      }
    }
  }

  /** The boxes of a file whose last box runs to the end, cut inside the body of that box. */
  lemma {:induction false} CutToEndWalk(data: Bytes, offset: nat, cut: nat)
    requires offset <= |data| && Boxes(data, offset, |data|).Some?
    requires Boxes(data, offset, |data|).value != []
    requires var spans := Boxes(data, offset, |data|).value;
      var s := spans[|spans| - 1];
      !s.box.declared && s.start <= cut <= |data|
    ensures offset <= cut && var spans := Boxes(data, offset, |data|).value;
      var n := |spans| - 1;
      Boxes(data[..cut], offset, cut) ==
        if spans[n].start == cut then Some(spans[..n])
        else if cut < spans[n].start + 8 then None
        else Some(spans[..n] + [spans[n].(box := spans[n].box.(size := cut - spans[n].start))])
    decreases |data| - offset
  {
    hide ReadHeader;
    var spans := Boxes(data, offset, |data|).value;
    var n := |spans| - 1;
    BoxesTile(data, offset, |data|);
    if n > 0 {
      StartsAfter(data, spans, n, offset, |data|);
      assert Declares(data, spans[0], |data|);
      HeaderInPrefix(data, cut, offset, |data|);
      ToEndIsLast(data, offset);
      var next := offset + spans[0].box.size;
      assert Boxes(data, next, |data|).value == spans[1..];
      CutToEndWalk(data, next, cut);
      var last := spans[n].(box := spans[n].box.(size := cut - spans[n].start));
      assert spans[..n] == [spans[0]] + spans[1..][..n - 1];
      assert spans[..n] + [last] == [spans[0]] + (spans[1..][..n - 1] + [last]);
    } else if offset + 8 <= cut {
      HeaderInPrefix(data, cut, offset, |data|);
      var last := spans[n].(box := spans[n].box.(size := cut - spans[n].start));
      assert Boxes(data[..cut], cut, cut) == Some([]);
      assert Boxes(data[..cut], offset, cut) == Some([last] + []);
      assert spans[..n] + [last] == [last] + [];
    }
  }

  /** The last box, run to the end of a file cut short. */
  function Shortened(s: Span, cut: nat): Span
    requires s.start <= cut
  {
    s.(box := s.box.(size := cut - s.start))
  }

  /**
   The to-end size form is the exact exception: an accepted file whose last box runs to the end
   stays accepted precisely for cuts that keep its header and, when it is the movie box, leave
   whole boxes of it with a video track among them.
   */
  lemma CutToEnd(data: Bytes, spans: seq<Span>, cut: nat)
    requires Boxes(data, 0, |data|) == Some(spans) && spans != [] && Accepts(data)
    requires var s := spans[|spans| - 1]; !s.box.declared && s.start < cut < |data|
    ensures var s := spans[|spans| - 1];
      Accepts(data[..cut]) <==>
        && s.start + 8 <= cut
        && (s.box.kind == Moov ==> Inside(data, Shortened(s, cut)) && IsVideoMovie(data, Shortened(s, cut)))
  {
    hide ReadHeader, Boxes, LastMoov, IsVideoMovie, KindOf, Accepts;
    var n := |spans| - 1;
    var s, part := spans[n], data[..cut];
    BoxesTile(data, 0, |data|);
    CutToEndWalk(data, 0, cut);
    AcceptsBy(data, spans);
    if s.start + 8 > cut {
      Unwalked(part);
    } else {
      var last := Shortened(s, cut);
      AcceptsBy(part, spans[..n] + [last]);
      assert part[4..8] == data[4..8];
      ToEndHeader(data, s);
      LastMoovSnoc(spans[..n], last);
      LastMoovSnoc(spans[..n], s);
      assert spans == spans[..n] + [s];
      if s.box.kind == Moov {
        FirstKind(data);
        SpansBefore(data, spans, 0, n);
        SameMovie(data, cut, last);
      } else {
        var m := LastMoovIsLast(spans[..n]);
        SpansBefore(data, spans, m, n);
        SameMovie(data, cut, spans[m]);
      }
    }
  }

  /** The verdict in terms of the boxes the walk finds. */
  lemma AcceptsBy(data: Bytes, spans: seq<Span>)
    requires Boxes(data, 0, |data|) == Some(spans)
    ensures Accepts(data) <==>
      && |data| >= 16 && KindOf(data[4..8]) == Ftyp
      && var moov := LastMoov(spans); moov.Some? && Inside(data, moov.value) && IsVideoMovie(data, moov.value)
  {
    hide Boxes, LastMoov, IsVideoMovie, KindOf;
  }

  lemma Unwalked(data: Bytes)
    requires Boxes(data, 0, |data|).None?
    ensures !Accepts(data)
  {
    hide Boxes, LastMoov, IsVideoMovie, KindOf;
  }

  /** A box that runs to the end has the short header. */
  lemma ToEndHeader(data: Bytes, s: Span)
    requires Declares(data, s, |data|) && !s.box.declared
    ensures s.box.header == 8
  {
    hide BigEndian, KindOf;
  }

  lemma {:induction false} SpansBefore(data: Bytes, spans: seq<Span>, m: nat, n: nat)
    requires Tile(data, spans, 0, |data|) && m < n < |spans|
    ensures 8 <= spans[m].start + spans[m].box.size <= spans[n].start
  {
    hide ReadHeader;
    assert Declares(data, spans[m], |data|);
    if m + 1 < n {
      SpansBefore(data, spans, m, n - 1);
      assert Declares(data, spans[n - 1], |data|);
    }
  }

  lemma SameMovie(data: Bytes, cut: nat, moov: Span)
    requires Inside(data, moov) && moov.start + moov.box.size <= cut <= |data|
    ensures IsVideoMovie(data[..cut], moov) == IsVideoMovie(data, moov)
  {
    hide ReadHeader, Boxes, HasHandler;
    var start, end := moov.start + moov.box.header, moov.start + moov.box.size;
    SameInPrefix(data, cut, start, end);
    if Boxes(data, start, end).Some? {
      var kids := Boxes(data, start, end).value;
      BoxesTile(data, start, end);
      forall k | 0 <= k < |kids|
        ensures Inside(data[..cut], kids[k]) && Inside(data, kids[k])
        ensures IsVideoTrack(data[..cut], kids[k]) == IsVideoTrack(data, kids[k])
      {
        assert Declares(data, kids[k], end);
        SameInPrefix(data, cut, kids[k].start + kids[k].box.header, kids[k].start + kids[k].box.size);
      }
    }
  }
}
