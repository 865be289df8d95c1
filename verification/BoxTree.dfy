/**
 Box forests and their printed bytes: the specification the ISO media walk is measured
 against. Any box may use the 32-bit size, the 64-bit size, or, when it is the last of its
 siblings, the size that means "to the end".
 */
module BoxTree {
  import opened Common
  import opened MediaIntegrity

  datatype Form = Compact | Large | ToEnd

  /** Container kinds hold boxes; every other kind holds opaque bytes. */
  datatype Box =
    | Leaf(kind: Kind, form: Form, payload: Bytes)
    | Node(kind: Kind, form: Form, children: Forest)

  datatype Forest = Empty | More(head: Box, tail: Forest)

  function Code(kind: Kind): Bytes {
    match kind
    case Ftyp => FTYP case Moov => MOOV case Trak => TRAK case Mdia => MDIA
    case Minf => MINF case Stbl => STBL case Hdlr => HDLR
    case Other(code) => code
  }

  /** `n` in `width` bytes, most significant first. */
  function Encode(n: nat, width: nat): (s: Bytes)
    ensures |s| == width
  {
    if width == 0 then [] else Encode(n / 256, width - 1) + [n % 256]
  }

  function Capacity(width: nat): nat {
    if width == 0 then 1 else 256 * Capacity(width - 1)
  }

  function HeaderSize(form: Form): nat {
    if form == Large then 16 else 8
  }

  function PrintHeader(kind: Kind, form: Form, length: nat): Bytes {
    match form
    case Compact => Encode(8 + length, 4) + Code(kind)
    case Large => Encode(1, 4) + Code(kind) + Encode(16 + length, 8)
    case ToEnd => Encode(0, 4) + Code(kind)
  }

  function Body(b: Box): Bytes
    decreases b, 0
  {
    if b.Leaf? then b.payload else PrintAll(b.children)
  }

  function Print(b: Box): Bytes
    decreases b, 1
  {
    PrintHeader(b.kind, b.form, |Body(b)|) + Body(b)
  }

  function PrintAll(f: Forest): Bytes
    decreases f
  {
    if f.Empty? then [] else Print(f.head) + PrintAll(f.tail)
  }

  /** The kinds of box that hold boxes. */
  predicate HoldsBoxes(kind: Kind) {
    kind == Moov || kind == Trak || kind == Mdia || kind == Minf || kind == Stbl
  }

  /** The handler type, the third word of the payload, says `vide`. */
  predicate SaysVideo(payload: Bytes) {
    |payload| >= 12 && payload[8] == 'v' as int && payload[9] == 'i' as int
    && payload[10] == 'd' as int && payload[11] == 'e' as int
  }

  /** Sizes fit their fields, types are four bytes, and only a last sibling runs to the end. */
  predicate Printable(b: Box, last: bool)
    decreases b
  {
    && (b.kind.Other? ==> |b.kind.code| == 4 && KindOf(b.kind.code) == b.kind)
    && (b.Node? <==> HoldsBoxes(b.kind))
    && (b.Node? ==> PrintableAll(b.children))
    && (b.form == Compact ==> 8 + |Body(b)| < Capacity(4))
    && (b.form == Large ==> 16 + |Body(b)| < Capacity(8))
    && (b.form == ToEnd ==> last)
  }

  predicate PrintableAll(f: Forest)
    decreases f
  {
    f.More? ==> Printable(f.head, f.tail.Empty?) && PrintableAll(f.tail)
  }

  /** A `vide` handler can be reached from these boxes through containers. */
  predicate HasVideo(f: Forest)
    decreases f
  {
    f.More? &&
    ((if f.head.Node? then HasVideo(f.head.children) else f.head.kind == Hdlr && SaysVideo(f.head.payload))
     || HasVideo(f.tail))
  }

  predicate HasVideoTrack(f: Forest) {
    f.More? && ((f.head.Node? && f.head.kind == Trak && HasVideo(f.head.children)) || HasVideoTrack(f.tail))
  }

  /** The children of the last `moov` among these boxes. */
  function LastMovie(f: Forest): Option<Forest> {
    if f.Empty? then None
    else if LastMovie(f.tail).Some? then LastMovie(f.tail)
    else if f.head.Node? && f.head.kind == Moov then Some(f.head.children) else None
  }

  predicate IsVideoFile(f: Forest) {
    f.More? && f.head.kind == Ftyp && LastMovie(f).Some? && HasVideoTrack(LastMovie(f).value)
  }

  // ------------------------------------------------------------------ round trips

  lemma {:induction false} DecodeEncode(n: nat, width: nat)
    requires n < Capacity(width)
    ensures BigEndian(Encode(n, width)) == n
  {
    if width > 0 {
      DecodeEncode(n / 256, width - 1);
      var s := Encode(n, width);
      assert s[..|s| - 1] == Encode(n / 256, width - 1);
    }
  }

  lemma KindOfCode(kind: Kind)
    requires kind.Other? ==> KindOf(kind.code) == kind
    ensures KindOf(Code(kind)) == kind
  {}

  function HeaderOf(b: Box): Header {
    Header(b.kind, HeaderSize(b.form), |Print(b)|, b.form != ToEnd)
  }

  lemma HeaderLength(b: Box, last: bool)
    requires Printable(b, last)
    ensures |PrintHeader(b.kind, b.form, |Body(b)|)| == HeaderSize(b.form)
    ensures |Print(b)| == HeaderSize(b.form) + |Body(b)|
  {}

  /** The fields of a printed header decode to what was printed. */
  lemma HeaderParts(b: Box, last: bool)
    requires Printable(b, last)
    ensures var p, n := Print(b), |Body(b)|;
      && |p| >= 8 && p[4..8] == Code(b.kind)
      && p[0..4] == Encode(match b.form case Compact => 8 + n case Large => 1 case ToEnd => 0, 4)
      && (b.form == Large ==> |p| >= 16 && p[8..16] == Encode(16 + n, 8))
      && |p| == n + if b.form == Large then 16 else 8
  {
    hide Encode;
    HeaderLength(b, last);
  }

  lemma PrintedFields(b: Box, last: bool)
    requires Printable(b, last)
    ensures var p := Print(b);
      && |p| >= 8 && KindOf(p[4..8]) == b.kind
      && (b.form == Compact ==> BigEndian(p[0..4]) == |p|)
      && (b.form == Large ==> |p| >= 16 && BigEndian(p[0..4]) == 1 && BigEndian(p[8..16]) == |p|)
      && (b.form == ToEnd ==> BigEndian(p[0..4]) == 0)
  {
    HeaderParts(b, last);
    hide Encode, BigEndian, Print, Body;
    var n := |Body(b)|;
    assert Capacity(4) == 0x1_0000_0000 by { assert Capacity(2) == 0x1_0000; }
    DecodeEncode(match b.form case Compact => 8 + n case Large => 1 case ToEnd => 0, 4);
    KindOfCode(b.kind);
    if b.form == Large { DecodeEncode(16 + n, 8); }
  }

  lemma Slice(data: Bytes, offset: nat, p: Bytes, i: nat, j: nat)
    requires offset + |p| <= |data| && data[offset..offset + |p|] == p && i <= j <= |p|
    ensures data[offset + i..offset + j] == p[i..j]
  {
    forall k | 0 <= k < j - i ensures data[offset + i..offset + j][k] == p[i..j][k] {
      assert p[i + k] == data[offset..offset + |p|][i + k];
    }
  }

  /** Where a box was printed, the walk reads back its own header. */
  lemma ReadPrinted(data: Bytes, offset: nat, end: nat, b: Box, last: bool)
    requires Printable(b, last) && offset + |Print(b)| <= end <= |data|
    requires data[offset..offset + |Print(b)|] == Print(b)
    requires last ==> offset + |Print(b)| == end
    ensures offset + 8 <= end && ReadHeader(data, offset, end) == Some(HeaderOf(b))
  {
    hide BigEndian, KindOf, Encode, Code, Print, Capacity;
    PrintedFields(b, last);
    HeaderLength(b, last);
    Slice(data, offset, Print(b), 0, 4);
    Slice(data, offset, Print(b), 4, 8);
    if b.form == Large { Slice(data, offset, Print(b), 8, 16); }
  }

  function Spans(f: Forest, offset: nat): seq<Span> {
    if f.Empty? then []
    else [Span(offset, HeaderOf(f.head))] + Spans(f.tail, offset + |Print(f.head)|)
  }

  /** The pieces of a printed forest, in place. */
  lemma Split(data: Bytes, offset: nat, end: nat, f: Forest)
    requires f.More? && PrintableAll(f) && offset <= end <= |data| && data[offset..end] == PrintAll(f)
    ensures var next := offset + |Print(f.head)|;
      && offset + HeaderSize(f.head.form) <= next <= end
      && data[offset..next] == Print(f.head)
      && data[offset + HeaderSize(f.head.form)..next] == Body(f.head)
      && data[next..end] == PrintAll(f.tail)
      && (f.tail.Empty? ==> next == end)
      && offset + 8 <= end && ReadHeader(data, offset, end) == Some(HeaderOf(f.head))
  {
    hide ReadHeader, Encode, Code, KindOf, BigEndian;
    var whole := data[offset..end];
    var next := offset + |Print(f.head)|;
    assert whole[..|Print(f.head)|] == Print(f.head);
    assert whole[|Print(f.head)|..] == PrintAll(f.tail);
    assert data[offset..next] == whole[..|Print(f.head)|];
    assert data[next..end] == whole[|Print(f.head)|..];
    HeaderLength(f.head, f.tail.Empty?);
    var h := HeaderSize(f.head.form);
    assert Print(f.head)[h..] == Body(f.head);
    assert data[offset + h..next] == data[offset..next][h..];
    if f.tail.Empty? { assert next == end; }
    ReadPrinted(data, offset, end, f.head, f.tail.Empty?);
  }

  lemma VideoHandler(payload: Bytes)
    ensures IsVideoHandler(payload) <==> SaysVideo(payload)
  {
    if |payload| >= 12 {
      assert payload[8..12] == [payload[8], payload[9], payload[10], payload[11]];
    }
  }

  function Ascii(s: string): Bytes
    requires forall i :: 0 <= i < |s| ==> s[i] < 256 as char
  {
    seq(|s|, i requires 0 <= i < |s| => s[i] as int)
  }

  /** The codes of the kinds are their names in ASCII. */
  lemma CodesSpellNames()
    ensures Code(Ftyp) == Ascii("ftyp") && Code(Moov) == Ascii("moov") && Code(Trak) == Ascii("trak")
    ensures Code(Mdia) == Ascii("mdia") && Code(Minf) == Ascii("minf") && Code(Stbl) == Ascii("stbl")
    ensures Code(Hdlr) == Ascii("hdlr")
  {}

  /** On a printed forest the recursive search and the tiling are exact. */
  lemma {:induction false} WalkForest(data: Bytes, offset: nat, end: nat, f: Forest)
    requires PrintableAll(f) && offset <= end <= |data| && data[offset..end] == PrintAll(f)
    ensures HasHandler(data, offset, end) == HasVideo(f)
    ensures Boxes(data, offset, end) == Some(Spans(f, offset))
    decreases f
  {
    hide ReadHeader, IsVideoHandler, SaysVideo, Print, PrintHeader, Capacity, KindOf;
    if f.More? {
      if f.head.Leaf? { VideoHandler(f.head.payload); }
      Split(data, offset, end, f);
      var next := offset + |Print(f.head)|;
      WalkForest(data, next, end, f.tail);
      if f.head.Node? {
        WalkForest(data, offset + HeaderSize(f.head.form), next, f.head.children);
      }
    } else {
      assert offset == end;
    }
  }

  lemma {:induction false} LastMoovCons(s: Span, rest: seq<Span>)
    ensures LastMoov([s] + rest) ==
      if LastMoov(rest).Some? then LastMoov(rest) else if s.box.kind == Moov then Some(s) else None
  {
    if rest == [] {
      assert [s] + rest == [s];
    } else {
      var n := |rest| - 1;
      assert ([s] + rest)[..n + 1] == [s] + rest[..n];
      LastMoovCons(s, rest[..n]);
    }
  }

  /** The last `moov` the top-level loop remembers is the printed last movie. */
  lemma {:induction false} WalkMovies(data: Bytes, offset: nat, end: nat, f: Forest)
    requires PrintableAll(f) && offset <= end <= |data| && data[offset..end] == PrintAll(f)
    ensures LastMoov(Spans(f, offset)).Some? <==> LastMovie(f).Some?
    ensures LastMovie(f).Some? ==>
      var s := LastMoov(Spans(f, offset)).value;
      && Inside(data, s) && PrintableAll(LastMovie(f).value)
      && data[s.start + s.box.header..s.start + s.box.size] == PrintAll(LastMovie(f).value)
    decreases f
  {
    hide ReadHeader, LastMoov, Print, PrintHeader, Capacity, KindOf;
    if f.More? {
      Split(data, offset, end, f);
      var next := offset + |Print(f.head)|;
      WalkMovies(data, next, end, f.tail);
      LastMoovCons(Span(offset, HeaderOf(f.head)), Spans(f.tail, next));
    } else {
      assert LastMoov([]).None? by { NoMoov(); }
    }
  }

  lemma NoMoov()
    ensures LastMoov([]).None?
  {}

  lemma {:induction false} WalkTracks(data: Bytes, offset: nat, end: nat, f: Forest)
    requires PrintableAll(f) && offset <= end <= |data| && data[offset..end] == PrintAll(f)
    ensures AnyTrack(data, Spans(f, offset)) == HasVideoTrack(f)
    decreases f
  {
    hide ReadHeader, HasHandler, Print, PrintHeader, Capacity, KindOf, AnyTrack;
    if f.More? {
      Split(data, offset, end, f);
      var next := offset + |Print(f.head)|;
      WalkTracks(data, next, end, f.tail);
      if f.head.Node? {
        WalkForest(data, offset + HeaderSize(f.head.form), next, f.head.children);
      }
      AnyTrackCons(data, Span(offset, HeaderOf(f.head)), Spans(f.tail, next));
    } else {
      AnyTrackNil(data);
    }
  }

  lemma AnyTrackNil(data: Bytes)
    ensures !AnyTrack(data, [])
  {}

  lemma AnyTrackCons(data: Bytes, s: Span, rest: seq<Span>)
    requires Inside(data, s)
    ensures AnyTrack(data, [s] + rest) == (IsVideoTrack(data, s) || AnyTrack(data, rest))
  {
    hide HasHandler;
    var all := [s] + rest;
    if IsVideoTrack(data, s) { assert all[0] == s; }
    if AnyTrack(data, rest) {
      var k :| 0 <= k < |rest| && Inside(data, rest[k]) && IsVideoTrack(data, rest[k]);
      assert all[k + 1] == rest[k];
    }
    if AnyTrack(data, all) {
      var k :| 0 <= k < |all| && Inside(data, all[k]) && IsVideoTrack(data, all[k]);
      assert k > 0 ==> rest[k - 1] == all[k];
    }
  }

  /**
   Exactness: for every printable forest, in any mix of size forms, the verifier accepts the
   bytes if and only if the first box is `ftyp` and a `trak` of the last `moov` reaches a
   `vide` handler through containers.
   */
  lemma AcceptsExactlyVideo(f: Forest)
    requires PrintableAll(f)
    ensures Accepts(PrintAll(f)) <==> IsVideoFile(f)
  {
    hide ReadHeader, HasHandler, Print, PrintHeader, Capacity, KindOf, AnyTrack, Boxes, LastMoov, Encode, Code,
        Printable, HasVideo;
    var data := PrintAll(f);
    assert data[0..|data|] == data;
    WalkForest(data, 0, |data|, f);
    WalkMovies(data, 0, |data|, f);
    if f.More? {
      Split(data, 0, |data|, f);
      FirstKind(data);
    }
    if LastMovie(f).Some? {
      var s := LastMoov(Spans(f, 0)).value;
      var start, end := s.start + s.box.header, s.start + s.box.size;
      WalkForest(data, start, end, LastMovie(f).value);
      WalkTracks(data, start, end, LastMovie(f).value);
      if f.head.kind == Ftyp { TwoBoxes(f); }
    }
  }

  /** A file that opens with `ftyp` and holds a movie has at least two box headers. */
  lemma TwoBoxes(f: Forest)
    requires PrintableAll(f) && f.More? && f.head.kind == Ftyp && LastMovie(f).Some?
    ensures |PrintAll(f)| >= 16
  {
    assert f.tail.More?;
    HeaderLength(f.head, f.tail.Empty?);
    HeaderLength(f.tail.head, f.tail.tail.Empty?);
    hide Print, Capacity, KindOf;
    assert |PrintAll(f.tail)| == |Print(f.tail.head)| + |PrintAll(f.tail.tail)|;
  }
}
