/**
 * The Fiat-Shamir transcript (src/utils/channel.rs).
 *
 * A Keccak-256 sponge that has absorbed a byte string and is then finalised
 * yields the hash of that byte string, so the sponge `state` is modelled by the
 * bytes absorbed so far (`transcript`) and every draw is `keccak` over the
 * transcript followed by the draw counter. Keccak-256 itself is the parameter
 * `keccak`, fixed when the channel is created.
 */
module FiatShamir {
  import opened Field
  import opened Errors
  import opened Merkle

  /** `usize::MAX` on a 64-bit target. */
  const USIZE_MAX: nat := 0xFFFF_FFFF_FFFF_FFFF

  /** Number of values of a `u32`. */
  const U32_LIMIT: nat := 0x1_0000_0000

  /** Queries drawn for 96 bits of security at rate 4. */
  const QUERY_COUNT: nat := 144

  /** `val()`: the element read as a 128-bit unsigned integer, coordinate i being bit i. */
  function Val(x: Elem): nat
  {
    NatOfBits(x)
  }

  /** `BinaryField128b::deserialize` of a digest: its first 16 bytes read little-endian. */
  function Challenge(digest: Digest): Elem
  {
    FromLeBytes(digest[..16])
  }

  /** `sample_digest(counter)`: a clone of the sponge absorbs the counter's 8 bytes and is finalised. */
  function TranscriptDigest(keccak: Hasher, transcript: seq<Byte>, counter: nat): Digest
  {
    keccak(transcript + U64LeBytes(counter))
  }

  /** The point drawn from a transcript when the counter is `counter`. */
  function DrawPoint(keccak: Hasher, transcript: seq<Byte>, counter: nat): Elem
  {
    Challenge(TranscriptDigest(keccak, transcript, counter))
  }

  /** The n points drawn one after the other, the counter starting at `start`. */
  function Draws(keccak: Hasher, transcript: seq<Byte>, start: nat, n: nat): (points: seq<Elem>)
    ensures |points| == n
  {
    if n == 0 then [] else Draws(keccak, transcript, start, n - 1) + [DrawPoint(keccak, transcript, start + n - 1)]
  }

  /** Drawing a points and then b more is drawing a + b points: the counter is the only thing that moves. */
  lemma {:induction false} DrawsSplit(keccak: Hasher, transcript: seq<Byte>, start: nat, a: nat, b: nat)
    ensures Draws(keccak, transcript, start, a + b)
            == Draws(keccak, transcript, start, a) + Draws(keccak, transcript, start + a, b)
  {
    if b > 0 {
      DrawsSplit(keccak, transcript, start, a, b - 1);
    }
  }

  /** Draw i is the point for counter start + i. */
  lemma {:induction false} DrawsAt(keccak: Hasher, transcript: seq<Byte>, start: nat, n: nat, i: nat)
    requires i < n
    ensures Draws(keccak, transcript, start, n)[i] == DrawPoint(keccak, transcript, start + i)
  {
    if i < n - 1 {
      DrawsAt(keccak, transcript, start, n - 1, i);
    }
  }

  /** The number of indices in a domain of 2^logMaxLen points. */
  function DomainSize(logMaxLen: nat): nat
  {
    Pow2(logMaxLen)
  }

  /**
   * What `gen_queries(logMaxLen)` returns on a transcript whose counter is `counter`:
   * the two conversion failures, every index of a small domain, or 144 draws each
   * masked to the low logMaxLen bits (`& (domain - 1)` on a power of two is `% domain`).
   */
  function Queries(keccak: Hasher, transcript: seq<Byte>, counter: nat, logMaxLen: nat): (r: Result<seq<nat>>)
    ensures logMaxLen >= U32_LIMIT ==> r == Err(LogLenNotU32)
    ensures U32_LIMIT > logMaxLen >= 64 ==> r == Err(LogLenTooLarge)
    ensures r.Ok? ==> forall i :: 0 <= i < |r.value| ==> r.value[i] < DomainSize(logMaxLen)
    ensures r.Ok? && DomainSize(logMaxLen) < QUERY_COUNT ==>
              |r.value| == DomainSize(logMaxLen) && forall i :: 0 <= i < |r.value| ==> r.value[i] == i
    ensures r.Ok? && DomainSize(logMaxLen) >= QUERY_COUNT ==> |r.value| == QUERY_COUNT
    ensures r.Err? <==> logMaxLen >= 64 || (DomainSize(logMaxLen) >= QUERY_COUNT && counter + QUERY_COUNT > USIZE_MAX)
  {
    if logMaxLen >= U32_LIMIT then Err(LogLenNotU32)
    else if logMaxLen >= 64 then Err(LogLenTooLarge)
    else
      var domain := DomainSize(logMaxLen);
      if domain < QUERY_COUNT then Ok(seq(domain, i requires 0 <= i < domain => i))
      else if counter + QUERY_COUNT > USIZE_MAX then Err(ChannelCounterOverflow)
      else
        var points := Draws(keccak, transcript, counter, QUERY_COUNT);
        Ok(seq(QUERY_COUNT, i requires 0 <= i < QUERY_COUNT => Val(points[i]) % domain))
  }

  /** `Channel`: the absorbed transcript and the draw counter `round_idx`. */
  class Channel {
    const keccak: Hasher
    var transcript: seq<Byte>
    var roundIdx: nat

    /** `round_idx` is a `usize`. */
    ghost predicate Valid()
      reads this
    {
      roundIdx <= USIZE_MAX
    }

    /** `Channel::new`: a fresh sponge and a zero counter. */
    constructor (keccak: Hasher)
      ensures this.keccak == keccak && transcript == [] && roundIdx == 0
      ensures Valid()
    {
      this.keccak := keccak;
      transcript := [];
      roundIdx := 0;
    }

    /** `absorb_bytes`. */
    method AbsorbBytes(bytes: seq<Byte>)
      modifies this
      ensures transcript == old(transcript) + bytes && roundIdx == old(roundIdx)
    {
      transcript := transcript + bytes;
    }

    /** `sample_digest`: reads the channel and changes nothing. */
    function SampleDigest(counter: nat): (digest: Digest)
      reads this
      ensures digest == TranscriptDigest(keccak, transcript, counter)
    {
      TranscriptDigest(keccak, transcript, counter)
    }

    /** `observe_field_elem`: absorbs the canonical 16-byte serialisation; serialising into a vector cannot fail. */
    method ObserveFieldElem(x: Elem) returns (r: Result<()>)
      modifies this
      ensures r == Ok(())
      ensures transcript == old(transcript) + ToLeBytes(x) && roundIdx == old(roundIdx)
    {
      AbsorbBytes(ToLeBytes(x));
      r := Ok(());
    }

    /** `observe_field_elems`: absorbs each element in order. */
    method ObserveFieldElems(xs: seq<Elem>) returns (r: Result<()>)
      modifies this
      ensures r == Ok(())
      ensures transcript == old(transcript) + ElemsLeBytes(xs) && roundIdx == old(roundIdx)
    {
      for i := 0 to |xs|
        invariant transcript == old(transcript) + ElemsLeBytes(xs[..i]) && roundIdx == old(roundIdx)
      {
        assert xs[..i + 1][..i] == xs[..i];
        var _ := ObserveFieldElem(xs[i]);
      }
      assert xs[..|xs|] == xs;
      r := Ok(());
    }

    /** `observe_vector_commitment`: the root, then the depth as 8 little-endian bytes. */
    method ObserveVectorCommitment(c: VectorCommitment)
      modifies this
      ensures transcript == old(transcript) + c.root + U64LeBytes(c.depth) && roundIdx == old(roundIdx)
    {
      AbsorbBytes(c.root);
      AbsorbBytes(U64LeBytes(c.depth));
    }

    /** `observe_fri_commitment`: the vector commitment, then the packing factor as 8 little-endian bytes. */
    method ObserveFriCommitment(c: FriCommitment)
      modifies this
      ensures transcript == old(transcript) + c.vectorCommitment.root + U64LeBytes(c.vectorCommitment.depth)
                            + U64LeBytes(c.packingFactor)
      ensures roundIdx == old(roundIdx)
    {
      ObserveVectorCommitment(c.vectorCommitment);
      AbsorbBytes(U64LeBytes(c.packingFactor));
    }

    /**
     * `get_random_point`: the point for the current counter; the counter then moves by
     * one, and the draw fails, leaving the counter where it was, when that would overflow.
     */
    method GetRandomPoint() returns (r: Result<Elem>)
      requires Valid()
      modifies this
      ensures Valid() && transcript == old(transcript)
      ensures old(roundIdx) < USIZE_MAX ==>
                r == Ok(DrawPoint(keccak, transcript, old(roundIdx))) && roundIdx == old(roundIdx) + 1
      ensures old(roundIdx) == USIZE_MAX ==> r == Err(ChannelCounterOverflow) && roundIdx == old(roundIdx)
    {
      var digest := SampleDigest(roundIdx);
      if roundIdx == USIZE_MAX {
        return Err(ChannelCounterOverflow);
      }
      roundIdx := roundIdx + 1;
      r := Ok(Challenge(digest));
    }

    /** `get_random_points(n)`: n draws in order, stopping at the first failure. */
    method GetRandomPoints(n: nat) returns (r: Result<seq<Elem>>)
      requires Valid()
      modifies this
      ensures Valid() && transcript == old(transcript)
      ensures old(roundIdx) + n <= USIZE_MAX ==>
                r == Ok(Draws(keccak, transcript, old(roundIdx), n)) && roundIdx == old(roundIdx) + n
      ensures old(roundIdx) + n > USIZE_MAX ==> r == Err(ChannelCounterOverflow) && roundIdx == USIZE_MAX
    {
      var points := [];
      for i := 0 to n
        invariant Valid() && transcript == old(transcript)
        invariant roundIdx == old(roundIdx) + i
        invariant points == Draws(keccak, transcript, old(roundIdx), i)
      {
        var p := GetRandomPoint();
        if p.Err? {
          return Err(p.error);
        }
        points := points + [p.value];
      }
      r := Ok(points);
    }

    /** `gen_queries(logMaxLen)`: the indices of `Queries`, the counter moving by 144 when it draws. */
    method GenQueries(logMaxLen: nat) returns (r: Result<seq<nat>>)
      requires Valid()
      modifies this
      ensures Valid() && transcript == old(transcript)
      ensures r == Queries(keccak, transcript, old(roundIdx), logMaxLen)
      ensures roundIdx == if r.Ok? && DomainSize(logMaxLen) >= QUERY_COUNT then old(roundIdx) + QUERY_COUNT
                          else if r.Err? && r.error == ChannelCounterOverflow then USIZE_MAX
                          else old(roundIdx)
    {
      if logMaxLen >= U32_LIMIT {
        return Err(LogLenNotU32);
      }
      if logMaxLen >= 64 {
        return Err(LogLenTooLarge);
      }
      // `1 << shift` with shift < 64 is never zero, so the empty-domain failure cannot occur,
      // and `domain - 1` always fits in a u128.
      var domainSize := DomainSize(logMaxLen);
      if domainSize < QUERY_COUNT {
        return Ok(seq(domainSize, i requires 0 <= i < domainSize => i));
      }
      var randomElems := GetRandomPoints(QUERY_COUNT);
      if randomElems.Err? {
        return Err(randomElems.error);
      }
      var queries := [];
      for i := 0 to |randomElems.value|
        invariant |queries| == i
        invariant forall j :: 0 <= j < i ==> queries[j] == Val(randomElems.value[j]) % domainSize
      {
        queries := queries + [Val(randomElems.value[i]) % domainSize];
      }
      assert queries == seq(QUERY_COUNT, i requires 0 <= i < QUERY_COUNT => Val(randomElems.value[i]) % domainSize);
      r := Ok(queries);
    }
  }

  /**
   * Determinism: two channels that observe the same elements and then draw the same
   * number of points return the same points.
   */
  method SameTranscriptSamePoints(keccak: Hasher, observed: seq<Elem>, n: nat)
    returns (first: Result<seq<Elem>>, second: Result<seq<Elem>>)
    ensures first == second
    ensures n <= USIZE_MAX ==> first == Ok(Draws(keccak, ElemsLeBytes(observed), 0, n))
  {
    var a := new Channel(keccak);
    var b := new Channel(keccak);
    var _ := a.ObserveFieldElems(observed);
    var _ := b.ObserveFieldElems(observed);
    assert a.transcript == b.transcript == ElemsLeBytes(observed);
    first := a.GetRandomPoints(n);
    second := b.GetRandomPoints(n);
  }
}
