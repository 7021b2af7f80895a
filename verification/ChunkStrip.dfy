/**
 * The PNG and WebP metadata strippers (src/modules/discounts/evidence.ts). Both containers are
 * sequences of typed, length-prefixed chunks: PNG's big-endian with a checksum and an end chunk
 * (section 3.2 of RFC 2083), WebP's little-endian and padded to even length, inside a RIFF header
 * that states the length (section 2.3 of RFC 9649).
 */
module ChunkStrip {
  import opened Common
  import opened ImageBytes
  import opened ImageTokens

  datatype Container = Png | Webp

  /** A chunk under its four-letter type, or a final chunk cut off by the end of the data. */
  datatype Name = Chunk(kind: string) | CutOff

  /** `toString("ascii")` drops the top bit of every byte. */
  function Ascii(s: seq<Byte>): (r: string)
    ensures |r| == |s|
  {
    seq(|s|, i requires 0 <= i < |s| => (s[i] % 0x80) as char)
  }

  function KindOf(c: Container, s: seq<Byte>): string
    requires |s| >= 8
  {
    if c == Png then Ascii(s[4..8]) else Ascii(s[..4])
  }

  /** The whole chunk: its length and type fields, data, and checksum or padding. */
  function ChunkLength(c: Container, s: seq<Byte>): nat
    requires |s| >= 8
  {
    if c == Png then 8 + Be32(s[..4]) + 4
    else
      var size := Le32(s[4..8]);
      8 + size + size % 2
  }

  predicate IsMetadata(c: Container, name: Name) {
    name.Chunk? && name.kind in (if c == Png then {"eXIf", "tEXt", "zTXt", "iTXt", "tIME"} else {"EXIF", "XMP "})
  }

  /** Nothing after the end chunk of a PNG is read. */
  predicate Ends(c: Container, name: Name) { c == Png && name == Chunk("IEND") }

  function Read(c: Container, s: seq<Byte>): (r: Reading<Name>)
    ensures Sound(r, s)
  {
    if |s| < 8 then Nothing
    else
      var end := ChunkLength(c, s);
      if end > |s| then Found(Token(CutOff, s), |s|)
      else
        var name := Chunk(KindOf(c, s));
        Found(Token(name, s[..end]), if Ends(c, name) then |s| else end)
  }

  function Chunked(c: Container): Format<Name> { Format(s => Read(c, s), name => IsMetadata(c, name)) }

  const PNG_SIGNATURE: seq<Byte> := [0x89, 0x50, 0x4e, 0x47, 0x0d, 0x0a, 0x1a, 0x0a]
  const RIFF: seq<Byte> := [0x52, 0x49, 0x46, 0x46]
  const WEBP: seq<Byte> := [0x57, 0x45, 0x42, 0x50]

  predicate LooksLikePng(buf: seq<Byte>) { |buf| >= 8 && buf[..8] == PNG_SIGNATURE }

  predicate LooksLikeWebp(buf: seq<Byte>) { |buf| >= 12 && Ascii(buf[..4]) == "RIFF" && Ascii(buf[8..12]) == "WEBP" }

  function StripPng(buf: seq<Byte>): seq<Byte> {
    if LooksLikePng(buf) then buf[..8] + Stripped(Chunked(Png), buf[8..]) else buf
  }

  datatype Error = LengthOutOfRange

  function WithHeader(payload: seq<Byte>): Result<seq<Byte>, Error> {
    if 4 + |payload| >= 0x1_0000_0000 then Err(LengthOutOfRange)
    else Ok(RIFF + PutLe32(4 + |payload|) + WEBP + payload)
  }

  function StripWebp(buf: seq<Byte>): Result<seq<Byte>, Error> {
    if LooksLikeWebp(buf) then WithHeader(Stripped(Chunked(Webp), buf[12..])) else Ok(buf)
  }

  // ---------------------------------------------------------------------------
  // Reading is local to a chunk

  predicate WellFormed(c: Container, t: Token<Name>) {
    |t.bytes| >= 8 && |t.bytes| == ChunkLength(c, t.bytes) && t.name == Chunk(KindOf(c, t.bytes))
  }

  lemma ReadBack(c: Container, t: Token<Name>, rest: seq<Byte>)
    requires WellFormed(c, t) && (Ends(c, t.name) ==> rest == [])
    ensures Reads(Chunked(c), t, rest)
  {
    var s := t.bytes + rest;
    assert s[..4] == t.bytes[..4] && s[4..8] == t.bytes[4..8];
    assert s[..|t.bytes|] == t.bytes && s[|t.bytes|..] == rest;
    assert Chunked(c).read(s) == Read(c, s);
  }

  lemma NothingLeft(c: Container)
    ensures Chunked(c).read([]) == Nothing && Stripped(Chunked(c), []) == []
  {
    assert Chunked(c).read([]) == Read(c, []) == Nothing;
  }

  /** A chunk that is read whole is a chunk of its own. */
  lemma ReadIsWellFormed(c: Container, s: seq<Byte>)
    requires Read(c, s).Found? && Read(c, s).token.name.Chunk?
    ensures WellFormed(c, Read(c, s).token)
  {
    var bytes := Read(c, s).token.bytes;
    assert bytes[..4] == s[..4] && bytes[4..8] == s[4..8];
  }

  lemma CutOffAgain(c: Container, s: seq<Byte>)
    requires Read(c, s).Found? && Read(c, s).token.name.CutOff?
    ensures Reads(Chunked(c), Read(c, s).token, [])
  {
    assert s + [] == s && s[|s|..] == [];
    assert Chunked(c).read(s) == Read(c, s);
  }

  lemma ChunksReadAgain(c: Container, s: seq<Byte>)
    ensures ReadsAgain(Chunked(c), s)
  {
    var r := Read(c, s);
    assert Chunked(c).read(s) == r;
    if r.Found? && !IsMetadata(c, r.token.name) {
      NothingLeft(c);
      if r.used == |s| { assert s[r.used..] == []; }
      if r.token.name.CutOff? {
        CutOffAgain(c, s);
      } else {
        ReadIsWellFormed(c, s);
        ReadBack(c, r.token, Stripped(Chunked(c), s[r.used..]));
      }
    }
  }

  // ---------------------------------------------------------------------------
  // What stripping does to the chunks

  /** Stripping chunks: what can be read afterwards, and that doing it twice changes nothing more. */
  lemma StripsChunks(c: Container, s: seq<Byte>)
    ensures var out := Stripped(Chunked(c), s);
      && |out| <= |s|
      && Parse(Chunked(c), out) == Keep(Chunked(c), Parse(Chunked(c), s))
      && (forall t :: t in Parse(Chunked(c), out) ==> !IsMetadata(c, t.name))
      && Stripped(Chunked(c), out) == out
  {
    NeverGrows(Chunked(c), s);
    NothingLeft(c);
    forall d ensures ReadsAgain(Chunked(c), d) { ChunksReadAgain(c, d); }
    Reparse(Chunked(c), s);
    Idempotent(Chunked(c), s);
    NoMetadataKept(Chunked(c), Parse(Chunked(c), s));
  }

  /** PNG: exactly the five metadata chunk types go; every other chunk stays, in order and unchanged. */
  lemma StripsPng(buf: seq<Byte>)
    requires LooksLikePng(buf)
    ensures var out := StripPng(buf);
      && LooksLikePng(out) && |out| <= |buf|
      && Parse(Chunked(Png), out[8..]) == Keep(Chunked(Png), Parse(Chunked(Png), buf[8..]))
      && (forall t :: t in Parse(Chunked(Png), out[8..]) ==> !IsMetadata(Png, t.name))
      && StripPng(out) == out
  {
    var body := Stripped(Chunked(Png), buf[8..]);
    var out := StripPng(buf);
    assert out[..8] == buf[..8] && out[8..] == body;
    StripsChunks(Png, buf[8..]);
  }

  lemma HeaderParts(payload: seq<Byte>)
    requires WithHeader(payload).Ok?
    ensures var out := WithHeader(payload).value;
      && LooksLikeWebp(out) && out[12..] == payload && |out| == 12 + |payload|
      && Le32(out[4..8]) == |out| - 8
  {
    var out := WithHeader(payload).value;
    var size := PutLe32(4 + |payload|);
    assert out[..4] == RIFF && out[4..8] == size && out[8..12] == WEBP && out[12..] == payload;
  }

  /**
   * WebP: the EXIF and XMP chunks go, every other chunk stays, the RIFF length field is true of the
   * output, and stripping again changes nothing. It fails only on payloads no RIFF length can state.
   */
  lemma StripsWebp(buf: seq<Byte>)
    requires LooksLikeWebp(buf)
    ensures StripWebp(buf).Err? <==> |Stripped(Chunked(Webp), buf[12..])| > 0xffff_fffb
    ensures |buf| <= 0x1_0000_0007 ==> StripWebp(buf).Ok?
    ensures StripWebp(buf).Ok? ==>
      var out := StripWebp(buf).value;
      && LooksLikeWebp(out) && |out| <= |buf| && Le32(out[4..8]) == |out| - 8
      && Parse(Chunked(Webp), out[12..]) == Keep(Chunked(Webp), Parse(Chunked(Webp), buf[12..]))
      && (forall t :: t in Parse(Chunked(Webp), out[12..]) ==> !IsMetadata(Webp, t.name))
      && StripWebp(out) == Ok(out)
  {
    StripsChunks(Webp, buf[12..]);
    if StripWebp(buf).Ok? {
      HeaderParts(Stripped(Chunked(Webp), buf[12..]));
    }
  }

  /** A chunk list as the container format writes it: an end chunk comes last or not at all. */
  predicate Grammatical(c: Container, tokens: seq<Token<Name>>) {
    forall i :: 0 <= i < |tokens| ==> WellFormed(c, tokens[i]) && (Ends(c, tokens[i].name) ==> i == |tokens| - 1)
  }

  /** The reader inverts the format, and stripping removes exactly the metadata chunks. */
  lemma StripsExactly(c: Container, tokens: seq<Token<Name>>)
    requires Grammatical(c, tokens)
    ensures Parse(Chunked(c), Bytes(tokens)) == tokens
    ensures Stripped(Chunked(c), Bytes(tokens)) == Bytes(Keep(Chunked(c), tokens))
  {
    forall i | 0 <= i < |tokens| ensures Reads(Chunked(c), tokens[i], Bytes(tokens[i + 1..])) {
      ReadBack(c, tokens[i], Bytes(tokens[i + 1..]));
    }
    NothingLeft(c);
    ParseInvertsBytes(Chunked(c), tokens);
    StrippedIsKept(Chunked(c), Bytes(tokens));
  }

  // ---------------------------------------------------------------------------
  // Files written chunk by chunk

  /**
   * What a writer puts down: the four bytes of the size, the four of the type, the data, and the
   * checksum of a PNG chunk or the padding byte of a WebP chunk of odd size.
   */
  datatype Piece = Piece(size: seq<Byte>, kind: seq<Byte>, data: seq<Byte>, tail: seq<Byte>)

  predicate Legal(c: Container, p: Piece) {
    && |p.size| == 4 && |p.kind| == 4
    && match c
       case Png =>
         && 16_777_216 * (p.size[0] as int) + 65_536 * (p.size[1] as int) + 256 * (p.size[2] as int) + p.size[3]
              == |p.data|
         && |p.tail| == 4
       case Webp =>
         && (p.size[0] as int) + 256 * (p.size[1] as int) + 65_536 * (p.size[2] as int)
              + 16_777_216 * (p.size[3] as int) == |p.data|
         && |p.tail| == (if |p.data| % 2 == 1 then 1 else 0)
  }

  function Put(c: Container, p: Piece): seq<Byte> {
    if c == Png then p.size + p.kind + p.data + p.tail else p.kind + p.size + p.data + p.tail
  }

  function PutAll(c: Container, pieces: seq<Piece>): seq<Byte> {
    if pieces == [] then [] else Put(c, pieces[0]) + PutAll(c, pieces[1..])
  }

  /** The four type bytes, their top bits aside, as numbers. */
  predicate Spells(kind: seq<Byte>, a: int, b: int, c: int, d: int) {
    |kind| == 4 && kind[0] % 128 == a && kind[1] % 128 == b && kind[2] % 128 == c && kind[3] % 128 == d
  }

  /** eXIf, tEXt, zTXt, iTXt and tIME in a PNG; EXIF and XMP in a WebP. */
  predicate Personal(c: Container, kind: seq<Byte>) {
    match c
    case Png =>
      || Spells(kind, 0x65, 0x58, 0x49, 0x66) || Spells(kind, 0x74, 0x45, 0x58, 0x74)
      || Spells(kind, 0x7a, 0x54, 0x58, 0x74) || Spells(kind, 0x69, 0x54, 0x58, 0x74)
      || Spells(kind, 0x74, 0x49, 0x4d, 0x45)
    case Webp => Spells(kind, 0x45, 0x58, 0x49, 0x46) || Spells(kind, 0x58, 0x4d, 0x50, 0x20)
  }

  /** IEND, behind which a PNG writes nothing. */
  predicate Closes(c: Container, kind: seq<Byte>) { c == Png && Spells(kind, 0x49, 0x45, 0x4e, 0x44) }

  predicate File(c: Container, pieces: seq<Piece>) {
    && (forall i :: 0 <= i < |pieces| ==> Legal(c, pieces[i]))
    && (forall i :: 0 <= i < |pieces| && Closes(c, pieces[i].kind) ==> i == |pieces| - 1)
  }

  function Impersonal(c: Container, pieces: seq<Piece>): seq<Piece> {
    if pieces == [] then [] else
      (if Personal(c, pieces[0].kind) then [] else [pieces[0]]) + Impersonal(c, pieces[1..])
  }

  lemma AsciiSpells(kind: seq<Byte>, word: string)
    requires |kind| == 4 && |word| == 4 && forall i :: 0 <= i < 4 ==> word[i] < 128 as char
    ensures Ascii(kind) == word <==>
      Spells(kind, word[0] as int, word[1] as int, word[2] as int, word[3] as int)
  {
    if Spells(kind, word[0] as int, word[1] as int, word[2] as int, word[3] as int) {
      forall i | 0 <= i < 4 ensures Ascii(kind)[i] == word[i] { }
    } else if Ascii(kind) == word {
      forall i | 0 <= i < 4 ensures kind[i] % 128 == word[i] as int { assert Ascii(kind)[i] == word[i]; }
    }
  }

  lemma KindsSpelled(c: Container, kind: seq<Byte>)
    requires |kind| == 4
    ensures IsMetadata(c, Chunk(Ascii(kind))) <==> Personal(c, kind)
    ensures Ends(c, Chunk(Ascii(kind))) <==> Closes(c, kind)
  {
    AsciiSpells(kind, "eXIf");
    AsciiSpells(kind, "tEXt");
    AsciiSpells(kind, "zTXt");
    AsciiSpells(kind, "iTXt");
    AsciiSpells(kind, "tIME");
    AsciiSpells(kind, "EXIF");
    AsciiSpells(kind, "XMP ");
    AsciiSpells(kind, "IEND");
  }

  function TokenOf(c: Container, p: Piece): Token<Name> { Token(Chunk(Ascii(p.kind)), Put(c, p)) }

  function Tokens(c: Container, pieces: seq<Piece>): (tokens: seq<Token<Name>>)
    ensures |tokens| == |pieces|
  {
    seq(|pieces|, i requires 0 <= i < |pieces| => TokenOf(c, pieces[i]))
  }

  lemma PieceWellFormed(c: Container, p: Piece)
    requires Legal(c, p)
    ensures WellFormed(c, TokenOf(c, p))
  {
    var bytes := Put(c, p);
    if c == Png {
      assert bytes[..4] == p.size && bytes[4..8] == p.kind;
    } else {
      assert bytes[..4] == p.kind && bytes[4..8] == p.size;
    }
  }

  lemma KeptOne(c: Container, p: Piece, rest: seq<Token<Name>>, kept: seq<Piece>)
    requires Legal(c, p) && Bytes(Keep(Chunked(c), rest)) == PutAll(c, kept)
    ensures Bytes(Keep(Chunked(c), [TokenOf(c, p)] + rest))
      == PutAll(c, (if Personal(c, p.kind) then [] else [p]) + kept)
  {
    var tokens := Keep(Chunked(c), rest);
    KindsSpelled(c, p.kind);
    KeepOne(Chunked(c), TokenOf(c, p), rest);
    KeepOne(Chunked(c), TokenOf(c, p), tokens);
    assert [] + tokens == tokens && [] + kept == kept;
    assert ([p] + kept)[1..] == kept;
  }

  lemma TokensFirst(c: Container, pieces: seq<Piece>)
    requires pieces != []
    ensures Tokens(c, pieces) == [TokenOf(c, pieces[0])] + Tokens(c, pieces[1..])
  {
  }

  lemma {:induction false} TokensPut(c: Container, pieces: seq<Piece>)
    ensures Bytes(Tokens(c, pieces)) == PutAll(c, pieces)
  {
    if pieces != [] {
      TokensPut(c, pieces[1..]);
      TokensFirst(c, pieces);
      KeepOne(Chunked(c), TokenOf(c, pieces[0]), Tokens(c, pieces[1..]));
    }
  }

  lemma {:induction false} TokensKept(c: Container, pieces: seq<Piece>)
    requires forall i :: 0 <= i < |pieces| ==> Legal(c, pieces[i])
    ensures Bytes(Keep(Chunked(c), Tokens(c, pieces))) == PutAll(c, Impersonal(c, pieces))
  {
    if pieces != [] {
      TokensKept(c, pieces[1..]);
      TokensFirst(c, pieces);
      KeptOne(c, pieces[0], Tokens(c, pieces[1..]), Impersonal(c, pieces[1..]));
    }
  }

  lemma StripsPieces(c: Container, pieces: seq<Piece>)
    requires File(c, pieces)
    ensures Stripped(Chunked(c), PutAll(c, pieces)) == PutAll(c, Impersonal(c, pieces))
  {
    var tokens := Tokens(c, pieces);
    forall i | 0 <= i < |tokens| ensures WellFormed(c, tokens[i]) && (Ends(c, tokens[i].name) ==> i == |tokens| - 1) {
      PieceWellFormed(c, pieces[i]);
      KindsSpelled(c, pieces[i].kind);
    }
    StripsExactly(c, tokens);
    TokensPut(c, pieces);
    TokensKept(c, pieces);
  }

  /** A PNG written chunk by chunk loses its eXIf, tEXt, zTXt, iTXt and tIME chunks, and nothing else. */
  lemma WritesPngStripped(pieces: seq<Piece>)
    requires File(Png, pieces)
    ensures var signature: seq<Byte> := [137, 80, 78, 71, 13, 10, 26, 10];
      StripPng(signature + PutAll(Png, pieces)) == signature + PutAll(Png, Impersonal(Png, pieces))
  {
    var buf := PNG_SIGNATURE + PutAll(Png, pieces);
    assert buf[..8] == PNG_SIGNATURE && buf[8..] == PutAll(Png, pieces);
    StripsPieces(Png, pieces);
  }

  /**
   * A WebP written chunk by chunk, whatever its size field says, comes out without its EXIF and XMP
   * chunks, with all the rest, and with the size of what follows the field.
   */
  lemma WritesWebpStripped(size: seq<Byte>, pieces: seq<Piece>)
    requires |size| == 4 && File(Webp, pieces) && |PutAll(Webp, Impersonal(Webp, pieces))| < 0xffff_fffc
    ensures var riff: seq<Byte>, webp: seq<Byte> := [82, 73, 70, 70], [87, 69, 66, 80];
      var kept, r := PutAll(Webp, Impersonal(Webp, pieces)), StripWebp(riff + size + webp + PutAll(Webp, pieces));
      && r.Ok? && |r.value| == 12 + |kept| && r.value[..4] == riff && r.value[8..12] == webp && r.value[12..] == kept
      && (r.value[4] as int) + 256 * (r.value[5] as int) + 65_536 * (r.value[6] as int)
           + 16_777_216 * (r.value[7] as int) == 4 + |kept|
  {
    var buf := RIFF + size + WEBP + PutAll(Webp, pieces);
    assert buf[..4] == RIFF && buf[8..12] == WEBP && buf[12..] == PutAll(Webp, pieces);
    StripsPieces(Webp, pieces);
    var out := WithHeader(PutAll(Webp, Impersonal(Webp, pieces))).value;
    HeaderParts(PutAll(Webp, Impersonal(Webp, pieces)));
    assert out[..4] == RIFF && out[8..12] == WEBP;
    assert Le32(out[4..8]) == |out| - 8;
  }

  /** Anything that does not begin like a PNG, or like a WebP, is returned as it is. */
  lemma NeitherFormat(buf: seq<Byte>)
    ensures |buf| < 8 || buf[..8] != [137, 80, 78, 71, 13, 10, 26, 10] ==> StripPng(buf) == buf
    ensures |buf| < 12 || !Spells(buf[..4], 82, 73, 70, 70) || !Spells(buf[8..12], 87, 69, 66, 80) ==>
      StripWebp(buf) == Ok(buf)
  {
    if |buf| >= 12 {
      AsciiSpells(buf[..4], "RIFF");
      AsciiSpells(buf[8..12], "WEBP");
    }
  }

  /** The type bytes of a chunk. */
  function TypeOf(c: Container, bytes: seq<Byte>): seq<Byte>
    requires |bytes| >= 8
  {
    if c == Png then bytes[4..8] else bytes[..4]
  }

  lemma {:induction false} TokenPersonal(c: Container, s: seq<Byte>, t: Token<Name>)
    requires t in Parse(Chunked(c), s) && t.name.Chunk?
    ensures |t.bytes| >= 8 && (IsMetadata(c, t.name) <==> Personal(c, TypeOf(c, t.bytes)))
    decreases |s|
  {
    var r := Read(c, s);
    assert Chunked(c).read(s) == r;
    if t == r.token {
      ReadIsWellFormed(c, s);
      KindsSpelled(c, TypeOf(c, t.bytes));
    } else {
      TokenPersonal(c, s[r.used..], t);
    }
  }

  /** No whole chunk that reads from the data is of a personal type. */
  ghost predicate NothingPersonal(c: Container, s: seq<Byte>) {
    forall t :: t in Parse(Chunked(c), s) && t.name.Chunk? ==>
      |t.bytes| >= 8 && !Personal(c, TypeOf(c, t.bytes))
  }

  /** Every other chunk of `s`, and a last one cut off, is among those of `out`. */
  ghost predicate OthersStay(c: Container, s: seq<Byte>, out: seq<Byte>) {
    forall t :: t in Parse(Chunked(c), s) && (t.name.Chunk? && |t.bytes| >= 8 ==> !Personal(c, TypeOf(c, t.bytes))) ==>
      t in Parse(Chunked(c), out)
  }

  /** Whatever the bytes, no chunk of a personal type can be read after stripping, and every other one can. */
  lemma PersonalGone(c: Container, s: seq<Byte>)
    ensures NothingPersonal(c, Stripped(Chunked(c), s)) && OthersStay(c, s, Stripped(Chunked(c), s))
  {
    StripsChunks(c, s);
    NoMetadataKept(Chunked(c), Parse(Chunked(c), s));
    MembersKept(c, Parse(Chunked(c), s), Parse(Chunked(c), Stripped(Chunked(c), s)));
    KeptIsImpersonal(c, s, Stripped(Chunked(c), s));
  }

  lemma MembersKept(c: Container, before: seq<Token<Name>>, after: seq<Token<Name>>)
    requires after == Keep(Chunked(c), before)
    requires forall t :: t in Keep(Chunked(c), before) <==> t in before && !Chunked(c).metadata(t.name)
    ensures forall t :: t in after <==> t in before && !IsMetadata(c, t.name)
  {
  }

  lemma KeptIsImpersonal(c: Container, s: seq<Byte>, out: seq<Byte>)
    requires forall t :: t in Parse(Chunked(c), out) <==> t in Parse(Chunked(c), s) && !IsMetadata(c, t.name)
    ensures NothingPersonal(c, out) && OthersStay(c, s, out)
  {
    forall t | t in Parse(Chunked(c), s) && t.name.Chunk?
      ensures |t.bytes| >= 8 && (IsMetadata(c, t.name) <==> Personal(c, TypeOf(c, t.bytes)))
    {
      TokenPersonal(c, s, t);
    }
  }

  /** A final chunk cut off by the end of the data is copied as it is. */
  lemma CutOffVerbatim(c: Container, s: seq<Byte>, i: nat)
    requires i < |Parse(Chunked(c), s)| && Parse(Chunked(c), s)[i].name == CutOff
    ensures i == |Parse(Chunked(c), s)| - 1
    ensures EndsWith(s, Parse(Chunked(c), s)[i].bytes) &&
      EndsWith(Stripped(Chunked(c), s), Parse(Chunked(c), s)[i].bytes)
  {
    NothingLeft(c);
    assert RunsToEnd(Chunked(c), CutOff) by {
      forall d | Chunked(c).read(d).Found? && Chunked(c).read(d).token.name == CutOff
        ensures Chunked(c).read(d).used == |d| && Chunked(c).read(d).token.bytes == d
      {
        assert Chunked(c).read(d) == Read(c, d);
      }
    }
    TailVerbatim(Chunked(c), s, i);
  }

  lemma ChunksContiguous(c: Container)
    ensures Contiguous(Chunked(c))
  {
    forall s | Chunked(c).read(s).Found?
      ensures var r := Chunked(c).read(s);
        && Sound(r, s) && 0 < |r.token.bytes| && r.token.bytes <= s
        && (|r.token.bytes| < r.used ==> r.used == |s|)
    {
      assert Chunked(c).read(s) == Read(c, s);
    }
  }

  /** Whether the data has an end chunk, behind which nothing is read. */
  predicate HasEnd(tokens: seq<Token<Name>>, c: Container) { exists t :: t in tokens && Ends(c, t.name) }

  lemma {:induction false} EndedByChunk(c: Container, s: seq<Byte>)
    requires EndedEarly(Chunked(c), s)
    ensures HasEnd(Parse(Chunked(c), s), c)
    decreases |s|
  {
    var r := Read(c, s);
    assert Chunked(c).read(s) == r;
    if |r.token.bytes| < r.used {
      assert Ends(c, r.token.name);
      assert r.token in Parse(Chunked(c), s);
    } else {
      EndedByChunk(c, s[r.used..]);
      var t :| t in Parse(Chunked(c), s[r.used..]) && Ends(c, t.name);
      assert t in Parse(Chunked(c), s);
    }
  }

  /** What is dropped beside metadata: fewer than eight bytes, too few for a chunk, or what follows the end chunk. */
  lemma Dropped(c: Container, s: seq<Byte>)
    ensures Bytes(Parse(Chunked(c), s)) <= s
    ensures |LeftOver(Chunked(c), s)| < 8 || HasEnd(Parse(Chunked(c), s), c)
  {
    ChunksContiguous(c);
    NothingLeft(c);
    TokensInFront(Chunked(c), s);
    LeftOverIs(Chunked(c), s);
    var left := LeftOver(Chunked(c), s);
    assert Chunked(c).read(left) == Read(c, left);
    if EndedEarly(Chunked(c), s) { EndedByChunk(c, s); }
  }

  /** A PNG is left as it is exactly when it has no metadata chunk and nothing but chunks. */
  lemma PngUnchangedIff(buf: seq<Byte>)
    requires LooksLikePng(buf)
    ensures StripPng(buf) == buf <==>
      (forall t :: t in Parse(Chunked(Png), buf[8..]) ==> !IsMetadata(Png, t.name)) &&
        LeftOver(Chunked(Png), buf[8..]) == []
  {
    ChunksContiguous(Png);
    NothingLeft(Png);
    UnchangedIff(Chunked(Png), buf[8..]);
    assert buf == buf[..8] + buf[8..];
    assert StripPng(buf)[8..] == Stripped(Chunked(Png), buf[8..]);
  }

  /** The header a WebP file should have. */
  predicate HeaderTrue(buf: seq<Byte>)
    requires |buf| >= 12
  {
    buf[..4] == RIFF && buf[8..12] == WEBP && |buf| - 8 < 0x1_0000_0000 && buf[4..8] == PutLe32(|buf| - 8)
  }

  lemma FourParts(a: seq<Byte>, b: seq<Byte>, c: seq<Byte>, d: seq<Byte>, buf: seq<Byte>)
    requires |a| == 4 && |b| == 4 && |c| == 4 && |buf| >= 12
    ensures a + b + c + d == buf <==> a == buf[..4] && b == buf[4..8] && c == buf[8..12] && d == buf[12..]
  {
    var whole := a + b + c + d;
    assert whole[..4] == a && whole[4..8] == b && whole[8..12] == c && whole[12..] == d;
    assert buf == buf[..4] + buf[4..8] + buf[8..12] + buf[12..];
  }

  /** The written file is the old one exactly when the header was true and the payload has not changed. */
  lemma HeaderSame(buf: seq<Byte>, payload: seq<Byte>)
    requires |buf| >= 12
    ensures WithHeader(payload) == Ok(buf) <==> HeaderTrue(buf) && payload == buf[12..]
  {
    if 4 + |payload| < 0x1_0000_0000 {
      FourParts(RIFF, PutLe32(4 + |payload|), WEBP, payload, buf);
    }
  }

  /** A WebP is left as it is exactly when, beside that, its header is true. */
  lemma WebpUnchangedIff(buf: seq<Byte>)
    requires LooksLikeWebp(buf)
    ensures StripWebp(buf) == Ok(buf) <==>
      && HeaderTrue(buf)
      && (forall t :: t in Parse(Chunked(Webp), buf[12..]) ==> !IsMetadata(Webp, t.name)) &&
           LeftOver(Chunked(Webp), buf[12..]) == []
  {
    ChunksContiguous(Webp);
    NothingLeft(Webp);
    UnchangedIff(Chunked(Webp), buf[12..]);
    HeaderSame(buf, Stripped(Chunked(Webp), buf[12..]));
  }

  // ---------------------------------------------------------------------------
  // The walkers

  ghost predicate Strips(c: Container, strip: seq<Byte> -> seq<Byte>) { IsStripper(Chunked(c), strip) }

  /** What the reader finds at a complete chunk. */
  lemma ReadsChunk(c: Container, buf: seq<Byte>, offset: nat, end: nat)
    requires offset + 8 <= |buf| && end == offset + ChunkLength(c, buf[offset..]) <= |buf|
    ensures var name := Chunk(KindOf(c, buf[offset..]));
      var next := if Ends(c, name) then |buf| else end;
      && Chunked(c).read(From(buf, offset)) == Found(Token(name, Sub(buf, offset, end)), next - offset)
      && From(buf, next) == From(buf, offset)[next - offset..]
  {
    SubFrom(buf, offset, end - offset);
    assert Chunked(c).read(buf[offset..]) == Read(c, buf[offset..]);
  }

  /** A chunk the walker keeps becomes one piece of output, a metadata chunk none. */
  function Pushed(c: Container, name: Name, chunk: seq<Byte>): seq<seq<Byte>> {
    if IsMetadata(c, name) then [] else [chunk]
  }

  lemma PushedIsKept(c: Container, name: Name, chunk: seq<Byte>)
    ensures Concat(Pushed(c, name, chunk)) == Kept(Chunked(c), Token(name, chunk))
  {
    ConcatOne(chunk);
  }

  lemma PushesChunk(c: Container, strip: seq<Byte> -> seq<Byte>, buf: seq<Byte>, chunks: seq<seq<Byte>>, offset: nat,
      end: nat)
    requires Strips(c, strip) && offset + 8 <= |buf| && end == offset + ChunkLength(c, buf[offset..]) <= |buf|
    ensures var name := Chunk(KindOf(c, buf[offset..]));
      Outcome(strip, buf, chunks + Pushed(c, name, Sub(buf, offset, end)), if Ends(c, name) then |buf| else end)
        == Outcome(strip, buf, chunks, offset)
  {
    var name := Chunk(KindOf(c, buf[offset..]));
    var chunk := Sub(buf, offset, end);
    ReadsChunk(c, buf, offset, end);
    PushedIsKept(c, name, chunk);
    WalkOn(Chunked(c), strip, buf, chunks, offset, Pushed(c, name, chunk), if Ends(c, name) then |buf| else end);
  }

  /** A complete chunk is pushed, or skipped when it is metadata. */
  lemma PushChunk(c: Container, strip: seq<Byte> -> seq<Byte>, buf: seq<Byte>, chunks: seq<seq<Byte>>, offset: nat,
      end: nat)
    requires Strips(c, strip) && offset + 8 <= |buf| && end == offset + ChunkLength(c, buf[offset..]) <= |buf|
    ensures var name := Chunk(KindOf(c, buf[offset..]));
      Outcome(strip, buf, if IsMetadata(c, name) then chunks else chunks + [Sub(buf, offset, end)],
              if Ends(c, name) then |buf| else end) == Outcome(strip, buf, chunks, offset)
  {
    PushesChunk(c, strip, buf, chunks, offset, end);
    assert chunks + [] == chunks;
  }

  lemma PushCutOff(c: Container, strip: seq<Byte> -> seq<Byte>, buf: seq<Byte>, chunks: seq<seq<Byte>>, offset: nat)
    requires Strips(c, strip) && offset + 8 <= |buf| && offset + ChunkLength(c, buf[offset..]) > |buf|
    ensures Outcome(strip, buf, chunks + [buf[offset..]], |buf|) == Outcome(strip, buf, chunks, offset)
  {
    ConcatOne(buf[offset..]);
    assert Chunked(c).read(buf[offset..]) == Read(c, buf[offset..]);
    WalkOn(Chunked(c), strip, buf, chunks, offset, [buf[offset..]], |buf|);
  }

  lemma Arrived(c: Container, strip: seq<Byte> -> seq<Byte>, buf: seq<Byte>, chunks: seq<seq<Byte>>, offset: nat)
    requires Strips(c, strip) && offset + 8 > |buf|
    ensures Outcome(strip, buf, chunks, offset) == Concat(chunks)
  {
    assert Chunked(c).read(From(buf, offset)) == Nothing;
    WalkEnds(Chunked(c), strip, buf, chunks, offset);
  }

  /** The fields of the chunk at `offset`, as the walkers read them. */
  lemma PngFields(buf: seq<Byte>, offset: nat)
    requires offset + 8 <= |buf|
    ensures KindOf(Png, buf[offset..]) == Ascii(buf[offset + 4..offset + 8])
    ensures ChunkLength(Png, buf[offset..]) == 8 + Be32(buf[offset..offset + 4]) + 4
  {
    assert buf[offset..][..4] == buf[offset..offset + 4] && buf[offset..][4..8] == buf[offset + 4..offset + 8];
  }

  lemma WebpFields(buf: seq<Byte>, offset: nat)
    requires offset + 8 <= |buf|
    ensures KindOf(Webp, buf[offset..]) == Ascii(buf[offset..offset + 4])
    ensures var size := Le32(buf[offset + 4..offset + 8]); ChunkLength(Webp, buf[offset..]) == 8 + size + size % 2
  {
    assert buf[offset..][..4] == buf[offset..offset + 4] && buf[offset..][4..8] == buf[offset + 4..offset + 8];
  }

  method StripPngMetadata(buf: seq<Byte>) returns (out: seq<Byte>)
    ensures out == StripPng(buf)
  {
    if |buf| < 8 || Sub(buf, 0, 8) != PNG_SIGNATURE { return buf; }
    ghost var result := StripPng(buf);
    ghost var strip := StripperOf(Chunked(Png));
    WalkStarts(Chunked(Png), strip, buf, 8);
    var chunks := [Sub(buf, 0, 8)];
    var offset := 8;
    ghost var reached := offset;
    while offset + 8 <= |buf|
      invariant reached == offset && Outcome(strip, buf, chunks, reached) == result
      decreases |buf| - offset
    {
      var length := Be32(buf[offset..offset + 4]);
      var name := Chunk(Ascii(buf[offset + 4..offset + 8]));
      var chunkEnd := offset + 8 + length + 4;
      PngFields(buf, offset);
      if chunkEnd > |buf| {
        PushCutOff(Png, strip, buf, chunks, offset);
        chunks, offset := chunks + [buf[offset..]], |buf|;
        reached := offset;
        break;
      }
      PushChunk(Png, strip, buf, chunks, offset, chunkEnd);
      if !IsMetadata(Png, name) { chunks := chunks + [Sub(buf, offset, chunkEnd)]; }
      reached := if Ends(Png, name) then |buf| else chunkEnd;
      offset := chunkEnd;
      if Ends(Png, name) { break; }
    }
    Arrived(Png, strip, buf, chunks, reached);
    out := Concat(chunks);
  }

  method StripWebpMetadata(buf: seq<Byte>) returns (r: Result<seq<Byte>, Error>)
    ensures r == StripWebp(buf)
  {
    if |buf| < 12 || Ascii(Sub(buf, 0, 4)) != "RIFF" || Ascii(Sub(buf, 8, 12)) != "WEBP" { return Ok(buf); }
    ghost var strip := StripperOf(Chunked(Webp));
    ghost var result := Outcome(strip, buf, [], 12);
    var body: seq<seq<Byte>> := [];
    var offset := 12;
    while offset + 8 <= |buf|
      invariant Outcome(strip, buf, body, offset) == result
      decreases |buf| - offset
    {
      var name := Chunk(Ascii(buf[offset..offset + 4]));
      var size := Le32(buf[offset + 4..offset + 8]);
      var padded := size + size % 2;
      var chunkEnd := offset + 8 + padded;
      WebpFields(buf, offset);
      if chunkEnd > |buf| {
        PushCutOff(Webp, strip, buf, body, offset);
        body, offset := body + [buf[offset..]], |buf|;
        break;
      }
      PushChunk(Webp, strip, buf, body, offset, chunkEnd);
      if !IsMetadata(Webp, name) { body := body + [Sub(buf, offset, chunkEnd)]; }
      offset := chunkEnd;
    }
    Arrived(Webp, strip, buf, body, offset);
    var payload := Concat(body);
    Unstarted(Webp, strip, buf, 12);
    r := WriteHeader(payload);
  }

  /** The walk starts with nothing pushed and everything from `offset` on to come. */
  lemma Unstarted(c: Container, strip: seq<Byte> -> seq<Byte>, buf: seq<Byte>, offset: nat)
    requires Strips(c, strip) && offset <= |buf|
    ensures Outcome(strip, buf, [], offset) == Stripped(Chunked(c), buf[offset..])
  {
    assert strip(buf[offset..]) == Stripped(Chunked(c), buf[offset..]);
  }

  /** The RIFF header, its length field stating the bytes that follow it. */
  method WriteHeader(payload: seq<Byte>) returns (r: Result<seq<Byte>, Error>)
    ensures r == WithHeader(payload)
  {
    if 4 + |payload| >= 0x1_0000_0000 { return Err(LengthOutOfRange); }
    var header := RIFF + PutLe32(4 + |payload|) + WEBP;
    return Ok(header + payload);
  }
}
