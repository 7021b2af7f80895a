/**
 * Stripping a tokenized byte format. A reader cuts one token off the front of the data; stripping
 * drops the tokens named as metadata and concatenates the bytes of the others. The three image
 * strippers (src/modules/discounts/evidence.ts) are this algorithm over three readers.
 */
module ImageTokens {
  import opened ImageBytes

  datatype Token<L> = Token(name: L, bytes: seq<Byte>)

  /** One reading step: a token and the number of bytes passed over, or nothing readable. */
  datatype Reading<L> = Nothing | Found(token: Token<L>, used: nat)

  datatype Format<!L> = Format(read: seq<Byte> -> Reading<L>, metadata: L -> bool)

  /** A reading that makes progress and stays within the data. */
  predicate Sound<L>(r: Reading<L>, s: seq<Byte>) {
    r.Found? ==> 0 < r.used <= |s| && |r.token.bytes| <= r.used
  }

  function Parse<L>(f: Format<L>, s: seq<Byte>): seq<Token<L>>
    decreases |s|
  {
    var r := f.read(s);
    if r.Nothing? || !Sound(r, s) then [] else [r.token] + Parse(f, s[r.used..])
  }

  function Keep<L>(f: Format<L>, tokens: seq<Token<L>>): seq<Token<L>> {
    if tokens == [] then [] else
      (if f.metadata(tokens[0].name) then [] else [tokens[0]]) + Keep(f, tokens[1..])
  }

  function Bytes<L>(tokens: seq<Token<L>>): seq<Byte> {
    if tokens == [] then [] else tokens[0].bytes + Bytes(tokens[1..])
  }

  /** The bytes of a kept token; none of a metadata token. */
  function Kept<L>(f: Format<L>, t: Token<L>): seq<Byte> { if f.metadata(t.name) then [] else t.bytes }

  /** The data without its metadata tokens. */
  function Stripped<L>(f: Format<L>, s: seq<Byte>): seq<Byte>
    decreases |s|
  {
    var r := f.read(s);
    if r.Nothing? || !Sound(r, s) then [] else Kept(f, r.token) + Stripped(f, s[r.used..])
  }

  // ---------------------------------------------------------------------------
  // One step

  lemma KeepOne<L>(f: Format<L>, t: Token<L>, rest: seq<Token<L>>)
    ensures Keep(f, [t] + rest) == (if f.metadata(t.name) then [] else [t]) + Keep(f, rest)
    ensures Bytes([t] + rest) == t.bytes + Bytes(rest)
  {
    assert ([t] + rest)[1..] == rest;
  }

  lemma StripStep<L>(f: Format<L>, s: seq<Byte>)
    requires f.read(s).Found? && Sound(f.read(s), s)
    ensures var r := f.read(s);
      && Parse(f, s) == [r.token] + Parse(f, s[r.used..])
      && Keep(f, Parse(f, s)) == (if f.metadata(r.token.name) then [] else [r.token]) + Keep(f, Parse(f, s[r.used..]))
  {
    KeepOne(f, f.read(s).token, Parse(f, s[f.read(s).used..]));
  }

  /** Stripping is parsing, keeping what is not metadata, and writing it out. */
  lemma {:induction false} StrippedIsKept<L>(f: Format<L>, s: seq<Byte>)
    ensures Stripped(f, s) == Bytes(Keep(f, Parse(f, s)))
    decreases |s|
  {
    var r := f.read(s);
    if r.Found? && Sound(r, s) {
      var rest := Keep(f, Parse(f, s[r.used..]));
      StrippedIsKept(f, s[r.used..]);
      StripStep(f, s);
      KeepOne(f, r.token, rest);
      assert [] + rest == rest && [] + Bytes(rest) == Bytes(rest);
    }
  }

  // ---------------------------------------------------------------------------
  // Stripping and reading agree

  /** A kept token is read again, and alone, from the front of what remains of the data after it. */
  ghost predicate ReadsAgain<L>(f: Format<L>, s: seq<Byte>) {
    var r := f.read(s);
    && Sound(r, s)
    && (r.Found? && !f.metadata(r.token.name) ==> Reads(f, r.token, Stripped(f, s[r.used..])))
  }

  /** Reading `t` followed by `rest` finds `t` and leaves `rest`. */
  ghost predicate Reads<L>(f: Format<L>, t: Token<L>, rest: seq<Byte>) {
    var s := t.bytes + rest;
    var r := f.read(s);
    r.Found? && Sound(r, s) && r.token == t && s[r.used..] == rest
  }

  lemma ParseReads<L>(f: Format<L>, t: Token<L>, rest: seq<Byte>)
    requires Reads(f, t, rest)
    ensures Parse(f, t.bytes + rest) == [t] + Parse(f, rest)
  {
  }

  lemma ReparseStep<L>(f: Format<L>, s: seq<Byte>)
    requires f.read(s).Found? && ReadsAgain(f, s)
    requires var rest := s[f.read(s).used..]; Parse(f, Stripped(f, rest)) == Keep(f, Parse(f, rest))
    ensures Parse(f, Stripped(f, s)) == Keep(f, Parse(f, s))
  {
    var r := f.read(s);
    var rest := Stripped(f, s[r.used..]);
    StripStep(f, s);
    if f.metadata(r.token.name) {
      assert [] + rest == rest;
      assert [] + Keep(f, Parse(f, s[r.used..])) == Keep(f, Parse(f, s[r.used..]));
    } else {
      ParseReads(f, r.token, rest);
    }
  }

  /** Reading the stripped data finds exactly the tokens that are not metadata, in order. */
  lemma {:induction false} Reparse<L>(f: Format<L>, s: seq<Byte>)
    requires forall d :: ReadsAgain(f, d)
    requires f.read([]).Nothing?
    ensures Parse(f, Stripped(f, s)) == Keep(f, Parse(f, s))
    decreases |s|
  {
    assert ReadsAgain(f, s);
    if f.read(s).Found? {
      Reparse(f, s[f.read(s).used..]);
      ReparseStep(f, s);
    }
  }

  lemma {:induction false} NoMetadataKept<L>(f: Format<L>, tokens: seq<Token<L>>)
    ensures forall t :: t in Keep(f, tokens) <==> t in tokens && !f.metadata(t.name)
    ensures Keep(f, Keep(f, tokens)) == Keep(f, tokens)
  {
    if tokens != [] {
      NoMetadataKept(f, tokens[1..]);
      KeepOne(f, tokens[0], Keep(f, tokens[1..]));
      assert [] + Keep(f, tokens[1..]) == Keep(f, tokens[1..]);
    }
  }

  lemma {:induction false} NeverGrows<L>(f: Format<L>, s: seq<Byte>)
    ensures |Stripped(f, s)| <= |s|
    decreases |s|
  {
    if f.read(s).Found? && Sound(f.read(s), s) {
      NeverGrows(f, s[f.read(s).used..]);
    }
  }

  /** Stripping twice is stripping once. */
  lemma Idempotent<L>(f: Format<L>, s: seq<Byte>)
    requires forall d :: ReadsAgain(f, d)
    requires f.read([]).Nothing?
    ensures Stripped(f, Stripped(f, s)) == Stripped(f, s)
  {
    Reparse(f, s);
    NoMetadataKept(f, Parse(f, s));
    StrippedIsKept(f, s);
    StrippedIsKept(f, Stripped(f, s));
  }

  /** Every token reads back from the front of the ones that follow it. */
  ghost predicate AllRead<L>(f: Format<L>, tokens: seq<Token<L>>) {
    forall i :: 0 <= i < |tokens| ==> Reads(f, tokens[i], Bytes(tokens[i + 1..]))
  }

  /** The reader inverts writing. */
  lemma {:induction false} ParseInvertsBytes<L>(f: Format<L>, tokens: seq<Token<L>>)
    requires AllRead(f, tokens) && f.read([]).Nothing?
    ensures Parse(f, Bytes(tokens)) == tokens
  {
    if tokens != [] {
      var rest := tokens[1..];
      assert AllRead(f, rest) by {
        forall i | 0 <= i < |rest| ensures Reads(f, rest[i], Bytes(rest[i + 1..])) {
          assert Reads(f, tokens[i + 1], Bytes(tokens[i + 2..]));
          assert tokens[i + 2..] == rest[i + 1..];
        }
      }
      ParseInvertsBytes(f, rest);
      assert Reads(f, tokens[0], Bytes(tokens[1..]));
      ParseReads(f, tokens[0], Bytes(rest));
      assert tokens == [tokens[0]] + rest;
    }
  }

  predicate EndsWith(s: seq<Byte>, tail: seq<Byte>) {
    |tail| <= |s| && s[|s| - |tail|..] == tail
  }

  lemma EndsWithin(front: seq<Byte>, s: seq<Byte>, tail: seq<Byte>)
    requires EndsWith(s, tail)
    ensures EndsWith(front + s, tail)
  {
    assert (front + s)[|front + s| - |tail|..] == s[|s| - |tail|..];
  }

  /** Tokens of this name are kept, and always run to the end of the data. */
  ghost predicate RunsToEnd<L>(f: Format<L>, name: L) {
    && !f.metadata(name)
    && forall s :: f.read(s).Found? && f.read(s).token.name == name ==>
         f.read(s).used == |s| && f.read(s).token.bytes == s
  }

  lemma RunsToEndStep<L>(f: Format<L>, s: seq<Byte>)
    requires f.read(s).Found? && Sound(f.read(s), s) && RunsToEnd(f, f.read(s).token.name) && f.read([]).Nothing?
    ensures Parse(f, s) == [f.read(s).token] && f.read(s).token.bytes == s && Stripped(f, s) == s
  {
    assert s[|s|..] == [];
    assert Parse(f, []) == [] && Stripped(f, []) == [];
  }

  /** From such a token on, the data and the stripped data are the same. */
  lemma {:induction false} TailVerbatim<L>(f: Format<L>, s: seq<Byte>, i: nat)
    requires i < |Parse(f, s)| && RunsToEnd(f, Parse(f, s)[i].name) && f.read([]).Nothing?
    ensures i == |Parse(f, s)| - 1
    ensures EndsWith(s, Parse(f, s)[i].bytes) && EndsWith(Stripped(f, s), Parse(f, s)[i].bytes)
    decreases |s|
  {
    var r := f.read(s);
    if i == 0 {
      RunsToEndStep(f, s);
    } else {
      var rest := s[r.used..];
      TailVerbatim(f, rest, i - 1);
      var tail := Parse(f, rest)[i - 1].bytes;
      EndsWithin(s[..r.used], rest, tail);
      assert s == s[..r.used] + rest;
      EndsWithin(Kept(f, r.token), Stripped(f, rest), tail);
    }
  }

  // ---------------------------------------------------------------------------
  // What is dropped, and when nothing is

  /** Tokens are cut off the front; bytes are passed over only on the way to the end of the data. */
  ghost predicate Contiguous<L>(f: Format<L>) {
    forall s :: f.read(s).Found? ==>
      var r := f.read(s);
      && Sound(r, s) && 0 < |r.token.bytes| && r.token.bytes <= s
      && (|r.token.bytes| < r.used ==> r.used == |s|)
  }

  /** The tokens are the front of the data; what is left over is not part of any of them. */
  lemma {:induction false} TokensInFront<L>(f: Format<L>, s: seq<Byte>)
    requires Contiguous(f) && f.read([]).Nothing?
    ensures Bytes(Parse(f, s)) <= s
    decreases |s|
  {
    var r := f.read(s);
    if r.Found? {
      var rest := s[r.used..];
      TokensInFront(f, rest);
      KeepOne(f, r.token, Parse(f, rest));
      assert s == s[..|r.token.bytes|] + s[|r.token.bytes|..];
    }
  }

  /** The bytes behind the last token, which are never copied. */
  function LeftOver<L>(f: Format<L>, s: seq<Byte>): seq<Byte> {
    var n := |Bytes(Parse(f, s))|;
    if n <= |s| then s[n..] else []
  }

  /** Something is left over only when nothing more could be read, or after a token that ends the data. */
  lemma {:induction false} LeftOverIs<L>(f: Format<L>, s: seq<Byte>)
    requires Contiguous(f) && f.read([]).Nothing?
    ensures f.read(LeftOver(f, s)).Nothing? || EndedEarly(f, s)
    decreases |s|
  {
    var r := f.read(s);
    TokensInFront(f, s);
    if r.Found? {
      var rest := s[r.used..];
      TokensInFront(f, rest);
      LeftOverIs(f, rest);
      KeepOne(f, r.token, Parse(f, rest));
      if r.used == |r.token.bytes| {
        assert LeftOver(f, s) == LeftOver(f, rest);
      }
    } else {
      assert s[0..] == s;
    }
  }

  /** Some token passed over bytes behind it. */
  predicate EndedEarly<L>(f: Format<L>, s: seq<Byte>)
    decreases |s|
  {
    var r := f.read(s);
    r.Found? && Sound(r, s) && (|r.token.bytes| < r.used || EndedEarly(f, s[r.used..]))
  }

  lemma {:induction false} KeepShrinks<L>(f: Format<L>, tokens: seq<Token<L>>)
    requires forall t :: t in tokens ==> t.bytes != []
    ensures |Bytes(Keep(f, tokens))| <= |Bytes(tokens)|
    ensures |Bytes(Keep(f, tokens))| == |Bytes(tokens)| <==> forall t :: t in tokens ==> !f.metadata(t.name)
    ensures (forall t :: t in tokens ==> !f.metadata(t.name)) ==> Keep(f, tokens) == tokens
  {
    if tokens != [] {
      var kept := Keep(f, tokens[1..]);
      KeepShrinks(f, tokens[1..]);
      assert tokens == [tokens[0]] + tokens[1..];
      KeepOne(f, tokens[0], kept);
      assert [] + kept == kept && tokens[0] in tokens;
    }
  }

  lemma {:induction false} TokensNotEmpty<L>(f: Format<L>, s: seq<Byte>)
    requires Contiguous(f)
    ensures forall t :: t in Parse(f, s) ==> t.bytes != []
    decreases |s|
  {
    var r := f.read(s);
    if r.Found? { TokensNotEmpty(f, s[r.used..]); }
  }

  /** Stripping changes nothing exactly when there is no metadata token and nothing is left over. */
  lemma UnchangedIff<L>(f: Format<L>, s: seq<Byte>)
    requires Contiguous(f) && f.read([]).Nothing?
    ensures Stripped(f, s) == s <==> (forall t :: t in Parse(f, s) ==> !f.metadata(t.name)) && LeftOver(f, s) == []
  {
    StrippedIsKept(f, s);
    TokensInFront(f, s);
    TokensNotEmpty(f, s);
    KeepShrinks(f, Parse(f, s));
  }

  // ---------------------------------------------------------------------------
  // The walkers' loop

  /**
   * `strip` is the stripping function. It is only looked into where a lemma mentions what it is,
   * which keeps the walkers' proofs away from the bytes still ahead of them.
   */
  ghost predicate IsStripper<L>(f: Format<L>, strip: seq<Byte> -> seq<Byte>) {
    forall s {:trigger Stripped(f, s)} :: strip(s) == Stripped(f, s)
  }

  lemma StripperOf<L>(f: Format<L>) returns (strip: seq<Byte> -> seq<Byte>)
    ensures IsStripper(f, strip)
  {
    strip := s => Stripped(f, s);
  }

  /** What a walker has pushed, and what is still to come; it stays the same all the way. */
  ghost function Outcome(strip: seq<Byte> -> seq<Byte>, buf: seq<Byte>, chunks: seq<seq<Byte>>,
      offset: nat): seq<Byte> {
    Concat(chunks) + strip(From(buf, offset))
  }

  lemma WalkStarts<L>(f: Format<L>, strip: seq<Byte> -> seq<Byte>, buf: seq<Byte>, offset: nat)
    requires IsStripper(f, strip) && offset <= |buf|
    ensures Outcome(strip, buf, [Sub(buf, 0, offset)], offset) == buf[..offset] + Stripped(f, buf[offset..])
  {
    ConcatOne(buf[..offset]);
    assert strip(buf[offset..]) == Stripped(f, buf[offset..]);
  }

  lemma WalkOn<L>(f: Format<L>, strip: seq<Byte> -> seq<Byte>, buf: seq<Byte>, chunks: seq<seq<Byte>>, offset: nat,
      pushed: seq<seq<Byte>>, next: nat)
    requires IsStripper(f, strip)
    requires var r := f.read(From(buf, offset));
      && r.Found? && Sound(r, From(buf, offset))
      && From(buf, next) == From(buf, offset)[r.used..]
      && Concat(pushed) == Kept(f, r.token)
    ensures Outcome(strip, buf, chunks + pushed, next) == Outcome(strip, buf, chunks, offset)
  {
    ConcatAppend(chunks, pushed);
    StrippedOn(f, strip, From(buf, offset), From(buf, next));
    Reassociate(Concat(chunks), Concat(pushed), strip(From(buf, next)));
  }

  /** One reading step of the stripping function. */
  lemma StrippedOn<L>(f: Format<L>, strip: seq<Byte> -> seq<Byte>, s: seq<Byte>, rest: seq<Byte>)
    requires IsStripper(f, strip)
    requires f.read(s).Found? && Sound(f.read(s), s) && rest == s[f.read(s).used..]
    ensures strip(s) == Kept(f, f.read(s).token) + strip(rest)
  {
    assert strip(s) == Stripped(f, s);
    assert strip(rest) == Stripped(f, rest);
  }

  lemma Reassociate(a: seq<Byte>, b: seq<Byte>, c: seq<Byte>)
    ensures a + (b + c) == a + b + c
  {
  }

  lemma WalkEnds<L>(f: Format<L>, strip: seq<Byte> -> seq<Byte>, buf: seq<Byte>, chunks: seq<seq<Byte>>, offset: nat)
    requires IsStripper(f, strip) && f.read(From(buf, offset)).Nothing?
    ensures Outcome(strip, buf, chunks, offset) == Concat(chunks)
  {
    assert Stripped(f, From(buf, offset)) == [];
    assert strip(From(buf, offset)) == [];
  }
}
