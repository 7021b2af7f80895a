/**
 * The JPEG metadata stripper (src/modules/discounts/evidence.ts). After the start-of-image marker a
 * JPEG is read as marker tokens (ITU-T T.81, section B.1.1); stripping removes the APP1..APP15 and
 * COM segments.
 */
module JpegStrip {
  import opened ImageBytes
  import opened ImageTokens

  const FILL: Byte := 0xff
  const SOI: Byte := 0xd8
  const EOI: Byte := 0xd9
  const SOS: Byte := 0xda

  /** Raw bytes follow no marker syntax and are copied as they are; a scan runs to the end of the data. */
  datatype Name = Standalone(marker: Byte) | Segment(marker: Byte) | Scan | Raw

  predicate NoPayload(marker: Byte) { marker == SOI || marker == 0x01 || 0xd0 <= marker <= 0xd7 }

  predicate MetadataMarker(marker: Byte) { 0xe1 <= marker <= 0xef || marker == 0xfe }

  predicate IsMetadata(name: Name) { name.Segment? && MetadataMarker(name.marker) }

  /** Past the fill bytes: the first position from `i` on that does not hold 0xFF. */
  function FillEnd(s: seq<Byte>, i: nat): (m: nat)
    requires i <= |s|
    ensures i <= m <= |s|
    ensures forall k :: i <= k < m ==> s[k] == FILL
    ensures m < |s| ==> s[m] != FILL
    decreases |s| - i
  {
    if i < |s| && s[i] == FILL then FillEnd(s, i + 1) else i
  }

  /** The first token of `s`. Bytes after an end-of-image marker are passed over. */
  function Read(s: seq<Byte>): (r: Reading<Name>)
    ensures Sound(r, s)
  {
    if |s| < 2 then Nothing
    else if s[0] != FILL then Found(Token(Raw, s), |s|)
    else
      var m := FillEnd(s, 1);
      if m == |s| then Nothing else ReadMarker(s, m)
  }

  /** The token whose marker is at position `m`, after fill bytes only. */
  function ReadMarker(s: seq<Byte>, m: nat): (r: Reading<Name>)
    requires 1 <= m < |s|
    ensures r.Found? && Sound(r, s)
  {
    if NoPayload(s[m]) then Found(Token(Standalone(s[m]), s[..m + 1]), m + 1)
    else if s[m] == EOI then Found(Token(Standalone(EOI), s[..m + 1]), |s|)
    else if m + 3 > |s| then Found(Token(Raw, s), |s|)
    else if s[m] == SOS then Found(Token(Scan, s), |s|)
    else
      var length := Be16(s[m + 1], s[m + 2]);
      var end := if m + 1 + length < |s| then m + 1 + length else |s|;
      // A length field below 2 cannot be a segment's: it does not even count itself.
      Found(Token(if length < 2 && !MetadataMarker(s[m]) then Raw else Segment(s[m]), s[..end]), end)
  }

  function Jpeg(): Format<Name> { Format(Read, IsMetadata) }

  predicate LooksLikeJpeg(buf: seq<Byte>) { |buf| >= 4 && buf[0] == FILL && buf[1] == SOI }

  function Strip(buf: seq<Byte>): seq<Byte> {
    if LooksLikeJpeg(buf) then buf[..2] + Stripped(Jpeg(), buf[2..]) else buf
  }

  // ---------------------------------------------------------------------------
  // Marker syntax

  lemma {:induction false} FillEndIs(s: seq<Byte>, i: nat, m: nat)
    requires i <= m < |s| && s[m] != FILL && forall k :: i <= k < m ==> s[k] == FILL
    ensures FillEnd(s, i) == m
    decreases m - i
  {
    if i < m { FillEndIs(s, i + 1, m); }
  }

  /** `s` begins with fill bytes ending in a marker at position `m`. */
  predicate MarkerAt(s: seq<Byte>, m: nat) {
    1 <= m < |s| && s[m] != FILL && forall k :: 0 <= k < m ==> s[k] == FILL
  }

  lemma ReadAt(s: seq<Byte>, m: nat)
    requires MarkerAt(s, m)
    ensures Read(s) == ReadMarker(s, m)
  {
    FillEndIs(s, 1, m);
  }

  /** Marker syntax with the marker at `m`: standalone, a segment with its true length, or a scan. */
  predicate Shaped(t: Token<Name>, m: nat)
    requires MarkerAt(t.bytes, m)
  {
    var s := t.bytes;
    match t.name
    case Standalone(marker) => marker == s[m] && (NoPayload(marker) || marker == EOI) && |s| == m + 1
    case Segment(marker) =>
      && marker == s[m] && !NoPayload(marker) && marker != EOI && marker != SOS
      && |s| >= m + 3 && Be16(s[m + 1], s[m + 2]) == |s| - (m + 1)
    case Scan => s[m] == SOS && |s| >= m + 3
    case Raw => false
  }

  ghost predicate WellFormed(t: Token<Name>) {
    exists m :: MarkerAt(t.bytes, m) && Shaped(t, m)
  }

  predicate Ends(t: Token<Name>) { t.name == Scan || t.name == Standalone(EOI) }

  /** A well-formed token is read back from the front of whatever follows it. */
  lemma ReadBack(t: Token<Name>, m: nat, rest: seq<Byte>)
    requires MarkerAt(t.bytes, m) && Shaped(t, m) && (Ends(t) ==> rest == [])
    ensures Reads(Jpeg(), t, rest)
  {
    var s := t.bytes + rest;
    assert MarkerAt(s, m);
    ReadAt(s, m);
    assert s[..|t.bytes|] == t.bytes && s[|t.bytes|..] == rest;
    assert Jpeg().read(s) == ReadMarker(s, m);
  }

  lemma ReadBackAny(t: Token<Name>, rest: seq<Byte>)
    requires WellFormed(t) && (Ends(t) ==> rest == [])
    ensures Reads(Jpeg(), t, rest)
  {
    var m :| MarkerAt(t.bytes, m) && Shaped(t, m);
    ReadBack(t, m, rest);
  }

  // ---------------------------------------------------------------------------
  // Every kept token is read again

  /** Bytes that are not marker syntax are passed through, unless only one is left. */
  lemma RawStripped(s: seq<Byte>)
    requires |s| >= 1 && s[0] != FILL
    ensures Stripped(Jpeg(), s) == if |s| >= 2 then s else []
  {
    assert Jpeg().read(s) == Read(s);
    if |s| >= 2 {
      StripStep(Jpeg(), s);
      assert Jpeg().read(s[|s|..]) == Nothing;
    }
  }

  lemma NothingStripped()
    ensures Stripped(Jpeg(), []) == []
  {
    assert Jpeg().read([]) == Read([]) == Nothing;
  }

  /** A token that is read to the end of the data reads the same alone. */
  lemma LastAgain(s: seq<Byte>)
    requires Read(s).Found? && Read(s).used == |s| && Read(s).token.bytes == s
    ensures Reads(Jpeg(), Read(s).token, [])
  {
    assert s + [] == s;
    assert Jpeg().read(s) == Read(s);
  }

  /** A segment too short to hold its own length field: what follows it is not marker syntax. */
  lemma ShortAgain(s: seq<Byte>, m: nat)
    requires MarkerAt(s, m) && m + 3 <= |s| && Be16(s[m + 1], s[m + 2]) < 2
    requires Read(s) == Found(Token(Raw, s[..m + 1 + Be16(s[m + 1], s[m + 2])]), m + 1 + Be16(s[m + 1], s[m + 2]))
    ensures Reads(Jpeg(), Read(s).token, Stripped(Jpeg(), s[Read(s).used..]))
  {
    var t, rest := Read(s).token, s[Read(s).used..];
    RawStripped(rest);
    if |rest| >= 2 {
      assert t.bytes + rest == s;
      assert Jpeg().read(s) == Read(s);
    } else {
      assert t.bytes == s[..m + 2];
      assert MarkerAt(t.bytes, m);
      ReadAt(t.bytes, m);
      assert Jpeg().read(t.bytes) == Found(t, |t.bytes|);
      assert t.bytes + [] == t.bytes;
    }
  }

  lemma MarkerAgain(s: seq<Byte>, m: nat)
    requires MarkerAt(s, m) && Read(s) == ReadMarker(s, m) && !IsMetadata(Read(s).token.name)
    ensures Reads(Jpeg(), Read(s).token, Stripped(Jpeg(), s[Read(s).used..]))
  {
    var r := Read(s);
    var t := r.token;
    if r.used == |s| {
      assert s[r.used..] == [];
      NothingStripped();
      if t.bytes == s {
        LastAgain(s);
      } else {
        assert MarkerAt(t.bytes, m);
        ReadBack(t, m, []);
      }
    } else if t.name.Raw? {
      ShortAgain(s, m);
    } else {
      assert MarkerAt(t.bytes, m);
      ReadBack(t, m, Stripped(Jpeg(), s[r.used..]));
    }
  }

  lemma JpegReadsAgain(s: seq<Byte>)
    ensures ReadsAgain(Jpeg(), s)
  {
    assert Jpeg().read(s) == Read(s);
    if Read(s).Found? && !IsMetadata(Read(s).token.name) {
      if s[0] != FILL {
        assert s[|s|..] == [];
        NothingStripped();
        LastAgain(s);
      } else {
        var m := FillEnd(s, 1);
        assert MarkerAt(s, m);
        MarkerAgain(s, m);
      }
    }
  }

  // ---------------------------------------------------------------------------
  // What stripping does to an image

  /** APP1 to APP15, and COM. */
  predicate Personal(marker: Byte) { (0xe1 <= marker && marker <= 0xef) || marker == 0xfe }

  /** A token with a length field behind its marker is metadata exactly when the marker is one of those. */
  lemma ReadPersonal(s: seq<Byte>, m: nat)
    requires Read(s).Found? && MarkerAt(Read(s).token.bytes, m) && |Read(s).token.bytes| >= m + 3
    ensures IsMetadata(Read(s).token.name) <==> Personal(Read(s).token.bytes[m])
  {
    var bytes := Read(s).token.bytes;
    assert bytes == s[..|bytes|] by { JpegContiguous(); assert Jpeg().read(s) == Read(s); }
    assert MarkerAt(s, m) && s[m] == bytes[m];
    ReadAt(s, m);
  }

  lemma {:induction false} TokenPersonal(s: seq<Byte>, t: Token<Name>, m: nat)
    requires t in Parse(Jpeg(), s) && MarkerAt(t.bytes, m) && |t.bytes| >= m + 3
    ensures IsMetadata(t.name) <==> Personal(t.bytes[m])
    decreases |s|
  {
    var r := Read(s);
    assert Jpeg().read(s) == r;
    if t == r.token {
      ReadPersonal(s, m);
    } else {
      TokenPersonal(s[r.used..], t, m);
    }
  }

  /** The token is a segment: its marker, at `m`, has both bytes of its length field behind it. */
  predicate Marked(t: Token<Name>, m: nat) { MarkerAt(t.bytes, m) && m + 3 <= |t.bytes| }

  /** No segment that reads from the data has a personal marker. */
  ghost predicate NothingPersonal(s: seq<Byte>) {
    forall t, m: nat :: t in Parse(Jpeg(), s) && Marked(t, m) ==> !Personal(t.bytes[m])
  }

  /** Every segment of `s` with another marker is among those of `out`. */
  ghost predicate OthersStay(s: seq<Byte>, out: seq<Byte>) {
    forall t, m: nat :: t in Parse(Jpeg(), s) && Marked(t, m) && !Personal(t.bytes[m]) ==> t in Parse(Jpeg(), out)
  }

  /**
   * Whatever the bytes, no APP1 to APP15 or COM segment can be read from the stripped image, and every
   * segment with another marker, APP0 included, is still there.
   */
  lemma PersonalGone(buf: seq<Byte>)
    requires LooksLikeJpeg(buf)
    ensures NothingPersonal(Strip(buf)[2..]) && OthersStay(buf[2..], Strip(buf)[2..])
  {
    StripsMetadata(buf);
    NoMetadataKept(Jpeg(), Parse(Jpeg(), buf[2..]));
    KeptIsImpersonal(buf[2..], Strip(buf)[2..]);
  }

  lemma KeptIsImpersonal(s: seq<Byte>, out: seq<Byte>)
    requires forall t :: t in Parse(Jpeg(), out) <==> t in Parse(Jpeg(), s) && !IsMetadata(t.name)
    ensures NothingPersonal(out) && OthersStay(s, out)
  {
    forall t, m: nat | t in Parse(Jpeg(), s) && Marked(t, m) ensures IsMetadata(t.name) <==> Personal(t.bytes[m]) {
      TokenPersonal(s, t, m);
    }
  }

  /**
   * Stripping never grows the image, leaves no metadata segment to be read, keeps every other token
   * in order and byte for byte, and does nothing more the second time.
   */
  lemma StripsMetadata(buf: seq<Byte>)
    requires LooksLikeJpeg(buf)
    ensures var out := Strip(buf);
      && 2 <= |out| <= |buf| && out[..2] == buf[..2]
      && Parse(Jpeg(), out[2..]) == Keep(Jpeg(), Parse(Jpeg(), buf[2..]))
      && (forall t :: t in Parse(Jpeg(), out[2..]) ==> !IsMetadata(t.name))
      && Strip(out) == out
  {
    var body := Stripped(Jpeg(), buf[2..]);
    var out := Strip(buf);
    assert out[2..] == body;
    NeverGrows(Jpeg(), buf[2..]);
    assert Jpeg().read([]) == Nothing;
    forall d ensures ReadsAgain(Jpeg(), d) { JpegReadsAgain(d); }
    Reparse(Jpeg(), buf[2..]);
    Idempotent(Jpeg(), buf[2..]);
    NoMetadataKept(Jpeg(), Parse(Jpeg(), buf[2..]));
  }

  lemma StripIdempotent(buf: seq<Byte>)
    ensures Strip(Strip(buf)) == Strip(buf)
  {
    if LooksLikeJpeg(buf) { StripsMetadata(buf); }
  }

  /** Anything that does not begin like a JPEG is returned as it is. */
  lemma NotJpeg(buf: seq<Byte>)
    requires |buf| < 4 || buf[0] != 0xff || buf[1] != 0xd8
    ensures Strip(buf) == buf
  {
  }

  /** An image body written by the marker grammar: nothing follows the end marker or the scan. */
  ghost predicate Grammatical(tokens: seq<Token<Name>>) {
    forall i :: 0 <= i < |tokens| ==> WellFormed(tokens[i]) && (Ends(tokens[i]) ==> i == |tokens| - 1)
  }

  lemma TokenLength(t: Token<Name>)
    requires WellFormed(t)
    ensures |t.bytes| >= 2
  {
    var m :| MarkerAt(t.bytes, m) && Shaped(t, m);
  }

  lemma GrammaticalReads(tokens: seq<Token<Name>>)
    requires Grammatical(tokens)
    ensures AllRead(Jpeg(), tokens)
  {
    forall i | 0 <= i < |tokens| ensures Reads(Jpeg(), tokens[i], Bytes(tokens[i + 1..])) {
      ReadBackAny(tokens[i], Bytes(tokens[i + 1..]));
    }
  }

  lemma StripBody(body: seq<Byte>)
    requires |body| >= 2 || body == []
    ensures Strip([FILL, SOI] + body) == [FILL, SOI] + Stripped(Jpeg(), body)
  {
    var buf := [FILL, SOI] + body;
    assert buf[2..] == body && buf[..2] == [FILL, SOI];
    if body == [] { NothingStripped(); }
  }

  /** From any grammatical image, exactly the APP1..APP15 and COM segments are removed. */
  lemma StripsExactly(tokens: seq<Token<Name>>)
    requires Grammatical(tokens)
    ensures Parse(Jpeg(), Bytes(tokens)) == tokens
    ensures Strip([FILL, SOI] + Bytes(tokens)) == [FILL, SOI] + Bytes(Keep(Jpeg(), tokens))
  {
    GrammaticalReads(tokens);
    assert Jpeg().read([]) == Nothing;
    ParseInvertsBytes(Jpeg(), tokens);
    StrippedIsKept(Jpeg(), Bytes(tokens));
    if tokens != [] { TokenLength(tokens[0]); }
    StripBody(Bytes(tokens));
  }

  // ---------------------------------------------------------------------------
  // Images written part by part

  /**
   * What a JPEG writer puts down, each part after `fill` further fill bytes: a marker alone, a segment
   * with its two-byte length, a scan with whatever follows it, or the end marker.
   */
  datatype Part =
    | Bare(fill: nat, marker: Byte)
    | Block(fill: nat, marker: Byte, high: Byte, low: Byte, data: seq<Byte>)
    | ScanData(fill: nat, data: seq<Byte>)
    | EndOfImage(fill: nat)

  predicate Legal(p: Part) {
    match p
    case Bare(_, marker) => marker == 0x01 || (0xd0 <= marker && marker <= 0xd8)
    case Block(_, marker, high, low, data) =>
      && marker != 0xff && marker != 0x01 && !(0xd0 <= marker && marker <= 0xda)
      && 256 * (high as int) + low == |data| + 2
    case ScanData(_, data) => |data| >= 2
    case EndOfImage(_) => true
  }

  function Fills(n: nat): (s: seq<Byte>)
    ensures |s| == n && forall k :: 0 <= k < n ==> s[k] == 0xff
  {
    seq(n, k => 0xff)
  }

  function Put(p: Part): seq<Byte> {
    match p
    case Bare(fill, marker) => Fills(fill + 1) + [marker]
    case Block(fill, marker, high, low, data) => Fills(fill + 1) + [marker, high, low] + data
    case ScanData(fill, data) => Fills(fill + 1) + [0xda] + data
    case EndOfImage(fill) => Fills(fill + 1) + [0xd9]
  }

  function PutAll(parts: seq<Part>): seq<Byte> { if parts == [] then [] else Put(parts[0]) + PutAll(parts[1..]) }

  /** Nothing is written behind a scan or the end marker. */
  predicate Image(parts: seq<Part>) {
    && (forall i :: 0 <= i < |parts| ==> Legal(parts[i]))
    && (forall i :: 0 <= i < |parts| && (parts[i].ScanData? || parts[i].EndOfImage?) ==> i == |parts| - 1)
  }

  predicate PersonalPart(p: Part) { p.Block? && Personal(p.marker) }

  function Impersonal(parts: seq<Part>): seq<Part> {
    if parts == [] then [] else (if PersonalPart(parts[0]) then [] else [parts[0]]) + Impersonal(parts[1..])
  }

  function TokenOf(p: Part): Token<Name> {
    Token(match p
          case Bare(_, marker) => Standalone(marker)
          case Block(_, marker, _, _, _) => Segment(marker)
          case ScanData(_, _) => Scan
          case EndOfImage(_) => Standalone(EOI), Put(p))
  }

  function Tokens(parts: seq<Part>): (tokens: seq<Token<Name>>)
    ensures |tokens| == |parts|
  {
    seq(|parts|, i requires 0 <= i < |parts| => TokenOf(parts[i]))
  }

  lemma PartShaped(p: Part)
    requires Legal(p)
    ensures MarkerAt(Put(p), p.fill + 1) && Shaped(TokenOf(p), p.fill + 1)
    ensures IsMetadata(TokenOf(p).name) <==> PersonalPart(p)
  {
    var bytes, m := Put(p), p.fill + 1;
    assert forall k :: 0 <= k < m ==> bytes[k] == 0xff;
    if p.Block? { assert bytes[m] == p.marker && bytes[m + 1] == p.high && bytes[m + 2] == p.low; }
  }

  lemma KeptOne(p: Part, rest: seq<Token<Name>>, kept: seq<Part>)
    requires Legal(p) && Bytes(Keep(Jpeg(), rest)) == PutAll(kept)
    ensures Bytes(Keep(Jpeg(), [TokenOf(p)] + rest)) == PutAll((if PersonalPart(p) then [] else [p]) + kept)
  {
    var tokens := Keep(Jpeg(), rest);
    PartShaped(p);
    KeepOne(Jpeg(), TokenOf(p), rest);
    KeepOne(Jpeg(), TokenOf(p), tokens);
    assert [] + tokens == tokens && [] + kept == kept;
    assert ([p] + kept)[1..] == kept;
  }

  lemma TokensFirst(parts: seq<Part>)
    requires parts != []
    ensures Tokens(parts) == [TokenOf(parts[0])] + Tokens(parts[1..])
  {
  }

  lemma {:induction false} TokensPut(parts: seq<Part>)
    ensures Bytes(Tokens(parts)) == PutAll(parts)
  {
    if parts != [] {
      TokensPut(parts[1..]);
      TokensFirst(parts);
      KeepOne(Jpeg(), TokenOf(parts[0]), Tokens(parts[1..]));
    }
  }

  lemma {:induction false} TokensKept(parts: seq<Part>)
    requires forall i :: 0 <= i < |parts| ==> Legal(parts[i])
    ensures Bytes(Keep(Jpeg(), Tokens(parts))) == PutAll(Impersonal(parts))
  {
    if parts != [] {
      TokensKept(parts[1..]);
      TokensFirst(parts);
      KeptOne(parts[0], Tokens(parts[1..]), Impersonal(parts[1..]));
    }
  }

  /** An image written part by part comes out without its APP1 to APP15 and COM segments, and with all the rest. */
  lemma WritesStripped(parts: seq<Part>)
    requires Image(parts)
    ensures Strip([0xff, 0xd8] + PutAll(parts)) == [0xff, 0xd8] + PutAll(Impersonal(parts))
  {
    var tokens := Tokens(parts);
    forall i | 0 <= i < |tokens| ensures WellFormed(tokens[i]) && (Ends(tokens[i]) ==> i == |tokens| - 1) {
      PartShaped(parts[i]);
    }
    StripsExactly(tokens);
    TokensPut(parts);
    TokensKept(parts);
  }

  /** From the start of the scan on, the image and the stripped image are the same. */
  lemma ScanVerbatim(s: seq<Byte>, i: nat)
    requires i < |Parse(Jpeg(), s)| && Parse(Jpeg(), s)[i].name == Scan
    ensures i == |Parse(Jpeg(), s)| - 1
    ensures EndsWith(s, Parse(Jpeg(), s)[i].bytes) && EndsWith(Stripped(Jpeg(), s), Parse(Jpeg(), s)[i].bytes)
  {
    assert Jpeg().read([]) == Nothing;
    assert RunsToEnd(Jpeg(), Scan) by {
      forall d | Jpeg().read(d).Found? && Jpeg().read(d).token.name == Scan
        ensures Jpeg().read(d).used == |d| && Jpeg().read(d).token.bytes == d
      {
        assert Jpeg().read(d) == Read(d);
      }
    }
    TailVerbatim(Jpeg(), s, i);
  }

  lemma JpegContiguous()
    ensures Contiguous(Jpeg())
  {
    forall s | Jpeg().read(s).Found?
      ensures var r := Jpeg().read(s);
        && Sound(r, s) && 0 < |r.token.bytes| && r.token.bytes <= s
        && (|r.token.bytes| < r.used ==> r.used == |s|)
    {
      assert Jpeg().read(s) == Read(s);
    }
  }

  predicate HasEnd(tokens: seq<Token<Name>>) { exists t :: t in tokens && t.name == Standalone(EOI) }

  lemma {:induction false} EndedByMarker(s: seq<Byte>)
    requires EndedEarly(Jpeg(), s)
    ensures HasEnd(Parse(Jpeg(), s))
    decreases |s|
  {
    var r := Read(s);
    assert Jpeg().read(s) == r;
    if |r.token.bytes| < r.used {
      assert r.token.name == Standalone(EOI);
      assert r.token in Parse(Jpeg(), s);
    } else {
      EndedByMarker(s[r.used..]);
      var t :| t in Parse(Jpeg(), s[r.used..]) && t.name == Standalone(EOI);
      assert t in Parse(Jpeg(), s);
    }
  }

  /** What is dropped beside metadata: a lone byte, fill bytes with no marker, or what follows the end marker. */
  lemma Dropped(s: seq<Byte>)
    ensures Bytes(Parse(Jpeg(), s)) <= s
    ensures var left := LeftOver(Jpeg(), s);
      |left| < 2 || (forall k :: 0 <= k < |left| ==> left[k] == FILL) || HasEnd(Parse(Jpeg(), s))
  {
    JpegContiguous();
    assert Jpeg().read([]) == Nothing;
    TokensInFront(Jpeg(), s);
    LeftOverIs(Jpeg(), s);
    var left := LeftOver(Jpeg(), s);
    assert Jpeg().read(left) == Read(left);
    if EndedEarly(Jpeg(), s) { EndedByMarker(s); }
  }

  /** A JPEG is left as it is exactly when it has no metadata segment and nothing but tokens. */
  lemma UnchangedExactly(buf: seq<Byte>)
    requires LooksLikeJpeg(buf)
    ensures Strip(buf) == buf <==>
      (forall t :: t in Parse(Jpeg(), buf[2..]) ==> !IsMetadata(t.name)) && LeftOver(Jpeg(), buf[2..]) == []
  {
    JpegContiguous();
    assert Jpeg().read([]) == Nothing;
    UnchangedIff(Jpeg(), buf[2..]);
    assert buf == buf[..2] + buf[2..];
    assert Strip(buf)[2..] == Stripped(Jpeg(), buf[2..]);
  }

  // ---------------------------------------------------------------------------
  // The walker

  ghost predicate Jpegs(strip: seq<Byte> -> seq<Byte>) { IsStripper(Jpeg(), strip) }

  lemma PushRest(strip: seq<Byte> -> seq<Byte>, buf: seq<Byte>, chunks: seq<seq<Byte>>, offset: nat)
    requires Jpegs(strip) && offset + 1 < |buf| && buf[offset] != FILL
    ensures Outcome(strip, buf, chunks + [buf[offset..]], |buf|) == Outcome(strip, buf, chunks, offset)
  {
    ConcatOne(buf[offset..]);
    assert Jpeg().read(buf[offset..]) == Read(buf[offset..]);
    WalkOn(Jpeg(), strip, buf, chunks, offset, [buf[offset..]], |buf|);
  }

  lemma NoMarker(strip: seq<Byte> -> seq<Byte>, buf: seq<Byte>, chunks: seq<seq<Byte>>, offset: nat)
    requires Jpegs(strip) && offset + 1 < |buf| && OnlyFill(buf, offset)
    ensures Outcome(strip, buf, chunks, |buf|) == Outcome(strip, buf, chunks, offset)
  {
    var s := buf[offset..];
    assert FillEnd(s, 1) == |s|;
    assert Jpeg().read(s) == Nothing && Jpeg().read([]) == Nothing;
    WalkEnds(Jpeg(), strip, buf, chunks, offset);
    WalkEnds(Jpeg(), strip, buf, chunks, |buf|);
  }

  /** Fill bytes from `offset` up to a marker at `at`. */
  predicate MarkerIn(buf: seq<Byte>, offset: nat, at: nat) {
    offset < at < |buf| && buf[at] != FILL && forall k :: offset <= k < at ==> buf[k] == FILL
  }

  predicate OnlyFill(buf: seq<Byte>, offset: nat) {
    forall k :: offset <= k < |buf| ==> buf[k] == FILL
  }

  /** The token whose marker is at `at` is walked past, its kept bytes pushed. */
  lemma PushToken(strip: seq<Byte> -> seq<Byte>, buf: seq<Byte>, chunks: seq<seq<Byte>>, offset: nat, at: nat,
      pushed: seq<seq<Byte>>, next: nat)
    requires Jpegs(strip) && MarkerIn(buf, offset, at)
    requires var r := ReadMarker(buf[offset..], at - offset);
      && (next == offset + r.used || (r.used == |buf| - offset && next >= |buf|))
      && Concat(pushed) == Kept(Jpeg(), r.token)
    ensures Outcome(strip, buf, chunks + pushed, next) == Outcome(strip, buf, chunks, offset)
  {
    var s := buf[offset..];
    assert MarkerAt(s, at - offset);
    ReadAt(s, at - offset);
    var r := ReadMarker(s, at - offset);
    SubFrom(buf, offset, r.used);
    assert Jpeg().read(s) == r;
    WalkOn(Jpeg(), strip, buf, chunks, offset, pushed, next);
  }

  lemma PushStandalone(strip: seq<Byte> -> seq<Byte>, buf: seq<Byte>, chunks: seq<seq<Byte>>, offset: nat, at: nat)
    requires Jpegs(strip) && MarkerIn(buf, offset, at) && (NoPayload(buf[at]) || buf[at] == EOI)
    ensures Outcome(strip, buf, chunks + [Sub(buf, offset, at + 1)], if buf[at] == EOI then |buf| else at + 1)
         == Outcome(strip, buf, chunks, offset)
  {
    SubFrom(buf, offset, at + 1 - offset);
    ConcatOne(Sub(buf, offset, at + 1));
    PushToken(strip, buf, chunks, offset, at, [Sub(buf, offset, at + 1)], if buf[at] == EOI then |buf| else at + 1);
  }

  /** A marker that takes a length field, which may be cut off or not. */
  predicate TakesLength(marker: Byte) { !NoPayload(marker) && marker != EOI }

  lemma PushCutOff(strip: seq<Byte> -> seq<Byte>, buf: seq<Byte>, chunks: seq<seq<Byte>>, offset: nat, at: nat)
    requires Jpegs(strip) && MarkerIn(buf, offset, at) && TakesLength(buf[at]) && at + 3 > |buf|
    ensures Outcome(strip, buf, chunks + [buf[offset..]], |buf|) == Outcome(strip, buf, chunks, offset)
  {
    ConcatOne(buf[offset..]);
    PushToken(strip, buf, chunks, offset, at, [buf[offset..]], |buf|);
  }

  /** The scan header and the entropy-coded data are pushed as two chunks. */
  lemma PushScan(strip: seq<Byte> -> seq<Byte>, buf: seq<Byte>, chunks: seq<seq<Byte>>, offset: nat, at: nat,
      segEnd: nat)
    requires Jpegs(strip) && MarkerIn(buf, offset, at) && at + 3 <= |buf| && buf[at] == SOS && segEnd > at
    ensures Outcome(strip, buf, chunks + [Sub(buf, offset, segEnd)] + [From(buf, segEnd)], |buf|)
         == Outcome(strip, buf, chunks, offset)
  {
    var a, b := Sub(buf, offset, segEnd), From(buf, segEnd);
    ConcatSplit([], a, b);
    ConcatOne(buf[offset..]);
    assert a + b == buf[offset..];
    PushToken(strip, buf, chunks, offset, at, [] + [a] + [b], |buf|);
    assert chunks + ([] + [a] + [b]) == chunks + [a] + [b];
  }

  lemma SegmentRead(buf: seq<Byte>, offset: nat, at: nat, segEnd: nat)
    requires MarkerIn(buf, offset, at) && at + 3 <= |buf|
    requires TakesLength(buf[at]) && buf[at] != SOS && segEnd == at + 1 + Be16(buf[at + 1], buf[at + 2])
    ensures var r := ReadMarker(buf[offset..], at - offset);
      && r.token.bytes == Sub(buf, offset, segEnd)
      && IsMetadata(r.token.name) == MetadataMarker(buf[at])
      && (segEnd == offset + r.used || (r.used == |buf| - offset && segEnd >= |buf|))
  {
    var end := if segEnd < |buf| then segEnd else |buf|;
    SubFrom(buf, offset, end - offset);
  }

  /** A segment is pushed, or skipped when it is metadata. */
  lemma PushSegment(strip: seq<Byte> -> seq<Byte>, buf: seq<Byte>, chunks: seq<seq<Byte>>, offset: nat, at: nat,
      segEnd: nat)
    requires Jpegs(strip) && MarkerIn(buf, offset, at) && at + 3 <= |buf|
    requires TakesLength(buf[at]) && buf[at] != SOS && segEnd == at + 1 + Be16(buf[at + 1], buf[at + 2])
    ensures var chunk := Sub(buf, offset, segEnd);
      Outcome(strip, buf, if MetadataMarker(buf[at]) then chunks else chunks + [chunk], segEnd)
        == Outcome(strip, buf, chunks, offset)
  {
    SegmentRead(buf, offset, at, segEnd);
    if MetadataMarker(buf[at]) {
      PushToken(strip, buf, chunks, offset, at, [], segEnd);
      assert chunks + [] == chunks;
    } else {
      ConcatOne(Sub(buf, offset, segEnd));
      PushToken(strip, buf, chunks, offset, at, [Sub(buf, offset, segEnd)], segEnd);
    }
  }

  lemma Arrived(strip: seq<Byte> -> seq<Byte>, buf: seq<Byte>, chunks: seq<seq<Byte>>, offset: nat)
    requires Jpegs(strip) && offset + 1 >= |buf|
    ensures Outcome(strip, buf, chunks, offset) == Concat(chunks)
  {
    assert Jpeg().read(From(buf, offset)) == Nothing;
    WalkEnds(Jpeg(), strip, buf, chunks, offset);
  }

  lemma Departed(strip: seq<Byte> -> seq<Byte>, buf: seq<Byte>)
    requires Jpegs(strip) && LooksLikeJpeg(buf)
    ensures Outcome(strip, buf, [Sub(buf, 0, 2)], 2) == Strip(buf)
  {
    WalkStarts(Jpeg(), strip, buf, 2);
  }

  /** The inner loop: past the fill bytes to the marker, or to the end of the data. */
  method SkipFill(buf: seq<Byte>, offset: nat) returns (markerOffset: nat)
    requires offset < |buf| && buf[offset] == FILL
    ensures offset < markerOffset <= |buf|
    ensures markerOffset < |buf| ==> MarkerIn(buf, offset, markerOffset)
    ensures markerOffset == |buf| ==> OnlyFill(buf, offset)
  {
    markerOffset := offset + 1;
    while markerOffset < |buf| && buf[markerOffset] == FILL
      invariant offset + 1 <= markerOffset <= |buf|
      invariant forall k :: offset <= k < markerOffset ==> buf[k] == FILL
    {
      markerOffset := markerOffset + 1;
    }
  }

  method StripJpegMetadata(buf: seq<Byte>) returns (out: seq<Byte>)
    ensures out == Strip(buf)
  {
    if |buf| < 4 || buf[0] != FILL || buf[1] != SOI { return buf; }
    ghost var strip := StripperOf(Jpeg());
    var chunks := [Sub(buf, 0, 2)];
    var offset := 2;
    ghost var result := Outcome(strip, buf, chunks, offset);
    while offset + 1 < |buf|
      invariant Outcome(strip, buf, chunks, offset) == result
      decreases |buf| - offset
    {
      if buf[offset] != FILL {
        PushRest(strip, buf, chunks, offset);
        chunks, offset := chunks + [buf[offset..]], |buf|;
        break;
      }
      var markerOffset := SkipFill(buf, offset);
      if markerOffset >= |buf| {
        NoMarker(strip, buf, chunks, offset);
        offset := |buf|;
        break;
      }
      var marker := buf[markerOffset];
      if NoPayload(marker) {
        PushStandalone(strip, buf, chunks, offset, markerOffset);
        chunks, offset := chunks + [Sub(buf, offset, markerOffset + 1)], markerOffset + 1;
        continue;
      }
      if marker == EOI {
        PushStandalone(strip, buf, chunks, offset, markerOffset);
        chunks, offset := chunks + [Sub(buf, offset, markerOffset + 1)], |buf|;
        break;
      }
      var lenOffset := markerOffset + 1;
      if lenOffset + 2 > |buf| {
        PushCutOff(strip, buf, chunks, offset, markerOffset);
        chunks, offset := chunks + [buf[offset..]], |buf|;
        break;
      }
      var length := Be16(buf[lenOffset], buf[lenOffset + 1]);
      var segEnd := lenOffset + length;
      if marker == SOS {
        PushScan(strip, buf, chunks, offset, markerOffset, segEnd);
        chunks, offset := chunks + [Sub(buf, offset, segEnd)] + [From(buf, segEnd)], |buf|;
        break;
      }
      PushSegment(strip, buf, chunks, offset, markerOffset, segEnd);
      if !MetadataMarker(marker) { chunks := chunks + [Sub(buf, offset, segEnd)]; }
      offset := segEnd;
    }
    Arrived(strip, buf, chunks, offset);
    Departed(strip, buf);
    out := Concat(chunks);
  }
}
