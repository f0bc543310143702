/**
 * Trimming the guardian signatures of a Wormhole VAA, choosing the update of a
 * feed, and packing both into the instruction that posts a price
 * (src/bots/solana_expiry_settler.py).
 */
module PythVaa {
  import opened Arithmetic
  import opened Bytes
  import opened Wrappers
  import opened PythAccumulator

  const REDUCED_GUARDIAN_SIGNATURES: byte := 5

  datatype VaaError = TooShort | TooFewSignatures

  // ── The format ──

  datatype Vaa = Vaa(version: byte, guardianSet: nat, signatures: seq<seq<byte>>, body: seq<byte>)

  predicate WellFormedSignatures(signatures: seq<seq<byte>>) {
    signatures == [] || (|signatures[0]| == 66 && WellFormedSignatures(signatures[1..]))
  }

  predicate WellFormedVaa(v: Vaa) {
    v.guardianSet < Pow256(4) && |v.signatures| < 256 && WellFormedSignatures(v.signatures)
  }

  function Concat(signatures: seq<seq<byte>>): seq<byte> {
    if signatures == [] then [] else signatures[0] + Concat(signatures[1..])
  }

  function VaaHead(v: Vaa): (r: seq<byte>)
    requires WellFormedVaa(v)
    ensures |r| == 6
  {
    [v.version] + ToBE(v.guardianSet, 4) + [|v.signatures|]
  }

  function EncodeVaa(v: Vaa): seq<byte>
    requires WellFormedVaa(v)
  {
    VaaHead(v) + Concat(v.signatures) + v.body
  }

  // ── The program's functions ──

  function Trim(vaa: seq<byte>, maxSignatures: byte): Result<seq<byte>, VaaError> {
    if |vaa| < 6 then Err(TooShort)
    else if vaa[5] < maxSignatures then Err(TooFewSignatures)
    else if vaa[5] == maxSignatures then Ok(vaa)
    else
      var current: nat := vaa[5];
      var keepEnd, originalEnd := Min(6 + 66 * maxSignatures, |vaa|), Min(6 + 66 * current, |vaa|);
      Ok((vaa[..keepEnd] + vaa[originalEnd..])[5 := maxSignatures])
  }

  function GuardianSetIndex(vaa: seq<byte>): Result<nat, VaaError> {
    if |vaa| < 5 then Err(TooShort) else Ok(FromBE(vaa[1..5]))
  }

  /** _trim_pyth_vaa_signatures, on a mutable copy of the bytes. */
  method TrimSignatures(vaa: seq<byte>, maxSignatures: byte) returns (r: Result<seq<byte>, VaaError>)
    ensures r == Trim(vaa, maxSignatures)
  {
    if |vaa| < 6 {
      return Err(TooShort);
    }
    var current: nat := vaa[5];
    if current < maxSignatures {
      return Err(TooFewSignatures);
    }
    if current == maxSignatures {
      return Ok(vaa);
    }
    var keepEnd := Min(6 + 66 * maxSignatures, |vaa|);
    var originalEnd := Min(6 + 66 * current, |vaa|);
    var kept := vaa[..keepEnd] + vaa[originalEnd..];
    var trimmed := new byte[|kept|](i requires 0 <= i < |kept| => kept[i]);
    assert trimmed[..] == kept;
    trimmed[5] := maxSignatures;
    assert trimmed[..] == kept[5 := maxSignatures];
    return Ok(trimmed[..]);
  }

  // ── Signatures ──

  lemma {:induction false} ConcatSplit(signatures: seq<seq<byte>>, m: nat)
    requires WellFormedSignatures(signatures) && m <= |signatures|
    ensures WellFormedSignatures(signatures[..m]) && |Concat(signatures)| == 66 * |signatures|
    ensures |Concat(signatures[..m])| == 66 * m && Concat(signatures)[..66 * m] == Concat(signatures[..m])
  {
    if signatures == [] {
      assert signatures[..m] == [];
    } else if m == 0 {
      ConcatSplit(signatures[1..], 0);
    } else {
      ConcatSplit(signatures[1..], m - 1);
      assert signatures[..m] == [signatures[0]] + signatures[1..][..m - 1];
      assert signatures[..m][1..] == signatures[1..][..m - 1];
    }
  }

  /** Cutting bytes into signatures. */
  function Cut(s: seq<byte>, n: nat): seq<seq<byte>>
    requires |s| == 66 * n
    decreases n
  {
    if n == 0 then [] else [s[..66]] + Cut(s[66..], n - 1)
  }

  lemma {:induction false} ConcatOfCut(s: seq<byte>, n: nat)
    requires |s| == 66 * n
    ensures |Cut(s, n)| == n && WellFormedSignatures(Cut(s, n)) && Concat(Cut(s, n)) == s
    decreases n
  {
    if n > 0 {
      ConcatOfCut(s[66..], n - 1);
      assert Cut(s, n)[1..] == Cut(s[66..], n - 1);
    }
  }

  /** The bytes hold all the signatures their sixth byte announces. */
  predicate Complete(vaa: seq<byte>) { |vaa| >= 6 && SignaturesEnd(vaa) <= |vaa| }

  function SignaturesEnd(vaa: seq<byte>): nat
    requires |vaa| >= 6
  {
    var announced: nat := vaa[5];
    6 + 66 * announced
  }

  lemma DecodeVaa(vaa: seq<byte>) returns (v: Vaa)
    requires Complete(vaa)
    ensures WellFormedVaa(v) && EncodeVaa(v) == vaa && |v.signatures| == vaa[5]
  {
    var end := SignaturesEnd(vaa);
    ConcatOfCut(vaa[6..end], vaa[5]);
    ToFromBE(vaa[1..5]);
    v := Vaa(vaa[0], FromBE(vaa[1..5]), Cut(vaa[6..end], vaa[5]), vaa[end..]);
    assert VaaHead(v) == vaa[..6];
    assert vaa == vaa[..6] + vaa[6..end] + vaa[end..];
  }

  lemma EncodedIsComplete(v: Vaa)
    requires WellFormedVaa(v)
    ensures Complete(EncodeVaa(v)) && EncodeVaa(v)[5] == |v.signatures| && EncodeVaa(v)[..6] == VaaHead(v)
  {
    ConcatSplit(v.signatures, 0);
  }

  // ── What trimming keeps ──

  function Reduced(v: Vaa, m: nat): Vaa
    requires m <= |v.signatures|
  {
    v.(signatures := v.signatures[..m])
  }

  /** Version, guardian set index, the first m signatures and the body stay; the rest goes. */
  lemma TrimOfEncoding(v: Vaa, m: byte)
    requires WellFormedVaa(v)
    ensures |v.signatures| < m ==> Trim(EncodeVaa(v), m) == Err(TooFewSignatures)
    ensures |v.signatures| >= m ==> WellFormedVaa(Reduced(v, m)) && Trim(EncodeVaa(v), m) == Ok(EncodeVaa(Reduced(v, m)))
  {
    var vaa, all := EncodeVaa(v), Concat(v.signatures);
    EncodedIsComplete(v);
    hide WellFormedSignatures;
    if |v.signatures| >= m {
      ConcatSplit(v.signatures, m);
      var kept := v.signatures[..m];
      var head, head' := VaaHead(v), VaaHead(Reduced(v, m));
      assert head' == head[5 := m];
      if |v.signatures| == m {
        assert kept == v.signatures;
      } else {
        assert vaa[..6 + 66 * m] == head + all[..66 * m] == head + Concat(kept);
        assert vaa[SignaturesEnd(vaa)..] == v.body;
        assert (head + Concat(kept) + v.body)[5 := m] == head' + Concat(kept) + v.body;
      }
    }
  }

  /** On any bytes, trimming a trimmed VAA changes nothing, and the guardian set index is the same. */
  lemma TrimIsIdempotent(vaa: seq<byte>, m: byte)
    requires Trim(vaa, m).Ok?
    ensures Trim(Trim(vaa, m).value, m) == Trim(vaa, m)
    ensures GuardianSetIndex(Trim(vaa, m).value) == GuardianSetIndex(vaa)
  {
    var t := Trim(vaa, m).value;
    assert t[1..5] == vaa[1..5];
  }

  /** The index read is the one encoded. */
  lemma GuardianSetOfEncoding(v: Vaa)
    requires WellFormedVaa(v)
    ensures GuardianSetIndex(EncodeVaa(v)) == Ok(v.guardianSet)
  {
    assert EncodeVaa(v)[1..5] == ToBE(v.guardianSet, 4);
    FromToBE(v.guardianSet, 4);
  }

  /**
   * Trimming does not look at the length: a result is a full VAA exactly when the
   * input holds the signatures that are kept, even if it was cut short behind them.
   */
  lemma TrimmedIsCompleteIff(vaa: seq<byte>, m: byte)
    requires Trim(vaa, m).Ok?
    ensures Complete(Trim(vaa, m).value) <==> |vaa| >= 6 + 66 * m
    ensures Complete(vaa) ==> Complete(Trim(vaa, m).value)
  {}

  // ── Choosing the update of a feed ──

  datatype MatchError = BadMessage | NoFeed

  /** What _parse_price_feed_message accepts; only the feed id is used here. */
  predicate PriceFeedMessage(message: seq<byte>) { |message| >= 85 && message[0] == 0 }

  function FeedId(message: seq<byte>): seq<byte>
    requires PriceFeedMessage(message)
  {
    message[1..33]
  }

  /** A price feed message: price and exponent in two's complement, and what follows the publish time. */
  datatype PriceFeed = PriceFeed(feed: seq<byte>, price: nat, conf: nat, exponent: nat, publishTime: nat, rest: seq<byte>)
  {
    ghost predicate WellFormed() {
      && |feed| == 32 && price < Pow256(8) && conf < Pow256(8) && exponent < Pow256(4) && publishTime < Pow256(8)
      && |rest| >= 24
    }

    function Encode(): seq<byte>
      requires WellFormed()
    {
      [0] + feed + ToBE(price, 8) + ToBE(conf, 8) + ToBE(exponent, 4) + ToBE(publishTime, 8) + rest
    }
  }

  /** An encoded price feed is accepted, and its feed id is read back. */
  lemma FeedIdOfEncoding(m: PriceFeed)
    requires m.WellFormed()
    ensures PriceFeedMessage(m.Encode()) && FeedId(m.Encode()) == m.feed
  {
    assert m.Encode()[1..33] == m.feed;
  }

  /** Every accepted message is an encoded price feed. */
  lemma DecodePriceFeed(message: seq<byte>) returns (m: PriceFeed)
    requires PriceFeedMessage(message)
    ensures m.WellFormed() && m.Encode() == message
  {
    m := PriceFeed(message[1..33], FromBE(message[33..41]), FromBE(message[41..49]), FromBE(message[49..53]),
                   FromBE(message[53..61]), message[61..]);
    ToFromBE(message[33..41]);
    ToFromBE(message[41..49]);
    ToFromBE(message[49..53]);
    ToFromBE(message[53..61]);
    assert message == message[..1] + message[1..33] + message[33..41] + message[41..49] + message[49..53]
                      + message[53..61] + message[61..];
  }

  predicate Matches(u: Update, feed: seq<byte>) { PriceFeedMessage(u.message) && FeedId(u.message) == feed }

  ghost predicate OthersBefore(updates: seq<Update>, feed: seq<byte>, k: nat)
    requires k <= |updates|
  {
    forall j :: 0 <= j < k ==> PriceFeedMessage(updates[j].message) && !Matches(updates[j], feed)
  }

  ghost predicate FirstMatch(updates: seq<Update>, feed: seq<byte>, k: nat) {
    k < |updates| && Matches(updates[k], feed) && OthersBefore(updates, feed, k)
  }

  ghost predicate FirstBad(updates: seq<Update>, feed: seq<byte>, k: nat) {
    k < |updates| && !PriceFeedMessage(updates[k].message) && OthersBefore(updates, feed, k)
  }

  /** Update k is a price feed message of the feed, and those before it are of other feeds. */
  ghost predicate IsUpdateOf(updates: seq<Update>, feed: seq<byte>, k: nat) {
    && k < |updates| && |updates[k].message| >= 85 && updates[k].message[0] == 0 && updates[k].message[1..33] == feed
    && forall j :: 0 <= j < k ==>
         |updates[j].message| >= 85 && updates[j].message[0] == 0 && updates[j].message[1..33] != feed
  }

  /** The loop takes the first update of the feed, unless a message that is no price feed comes before it. */
  method MatchingUpdate(updates: seq<Update>, feed: seq<byte>) returns (r: Result<Update, MatchError>, ghost k: nat)
    ensures r.Ok? <==> FirstMatch(updates, feed, k)
    ensures r.Ok? ==> r.value == updates[k] && IsUpdateOf(updates, feed, k)
    ensures r == Err(BadMessage) <==> FirstBad(updates, feed, k)
    ensures r == Err(NoFeed) ==> OthersBefore(updates, feed, |updates|)
  {
    for i := 0 to |updates|
      invariant OthersBefore(updates, feed, i)
    {
      k := i;
      var message := updates[i].message;
      if !PriceFeedMessage(message) {
        return Err(BadMessage), i;
      }
      if FeedId(message) == feed {
        return Ok(updates[i]), i;
      }
    }
    return Err(NoFeed), |updates|;
  }

  // ── Packing ──

  const MAX_U32 := 0x1_0000_0000

  datatype PackError = LengthTooLarge | BadProofItem

  function BorshBytes(raw: seq<byte>): Result<seq<byte>, PackError> {
    if |raw| >= MAX_U32 then Err(LengthTooLarge) else Ok(U32(|raw|) + raw)
  }

  function U32(n: nat): (r: seq<byte>)
    requires n < MAX_U32
    ensures |r| == 4
  {
    FourBytes();
    ToLE(n, 4)
  }

  lemma FourBytes()
    ensures Pow256(4) == MAX_U32
  {
    assert Pow256(1) == 256 && Pow256(2) == 65536 && Pow256(3) == 0x1_000000;
  }

  function BorshVecFixed20(items: seq<seq<byte>>): Result<seq<byte>, PackError> {
    if |items| >= MAX_U32 then Err(LengthTooLarge)
    else if !WellFormedProof(items) then Err(BadProofItem)
    else Ok(U32(|items|) + EncodeProof(items))
  }

  /** _borsh_vec_fixed_20, item by item. */
  method PackProof(items: seq<seq<byte>>) returns (r: Result<seq<byte>, PackError>)
    ensures r == BorshVecFixed20(items)
  {
    if |items| >= MAX_U32 {
      return Err(LengthTooLarge);
    }
    var payload := U32(|items|);
    assert items[0..] == items;
    for i := 0 to |items|
      invariant WellFormedProof(items) <==> WellFormedProof(items[i..])
      invariant payload + EncodeProof(items[i..]) == U32(|items|) + EncodeProof(items)
    {
      assert items[i..][1..] == items[i + 1..];
      if |items[i]| != 20 {
        return Err(BadProofItem);
      }
      assert (payload + items[i]) + EncodeProof(items[i + 1..]) == payload + (items[i] + EncodeProof(items[i + 1..]));
      payload := payload + items[i];
    }
    assert payload + EncodeProof(items[|items|..]) == payload;
    return Ok(payload);
  }

  /** The instruction data behind the discriminator. */
  function PackPostUpdate(vaa: seq<byte>, update: Update, treasury: byte): Result<seq<byte>, PackError> {
    var v, m, p := BorshBytes(vaa), BorshBytes(update.message), BorshVecFixed20(update.proof);
    if v.Err? then v else if m.Err? then m else if p.Err? then p
    else Ok(v.value + m.value + p.value + [treasury])
  }

  /** How a Borsh reader takes the data apart again. */
  function ReadU32(data: seq<byte>, cursor: nat): Option<nat> {
    if cursor + 4 <= |data| then Some(FromLE(data[cursor..cursor + 4])) else None
  }

  lemma U32At(data: seq<byte>, cursor: nat, n: nat)
    requires n < MAX_U32 && At(data, cursor, U32(n))
    ensures ReadU32(data, cursor) == Some(n)
  {
    FourBytes();
    FromToLE(n, 4);
    assert data[cursor..cursor + 4] == ToLE(n, 4);
  }

  lemma BytesAt(data: seq<byte>, cursor: nat, raw: seq<byte>, rest: seq<byte>)
    requires |raw| < MAX_U32 && At(data, cursor, U32(|raw|) + raw + rest)
    ensures ReadU32(data, cursor) == Some(|raw|) && At(data, cursor + 4, raw) && At(data, cursor + 4 + |raw|, rest)
  {
    AtConcat(data, cursor, U32(|raw|) + raw, rest);
    AtConcat(data, cursor, U32(|raw|), raw);
    U32At(data, cursor, |raw|);
  }

  lemma {:induction false} ProofIsDetermined(data: seq<byte>, cursor: nat, p: seq<seq<byte>>, q: seq<seq<byte>>)
    requires WellFormedProof(p) && WellFormedProof(q) && |p| == |q|
    requires At(data, cursor, EncodeProof(p)) && At(data, cursor, EncodeProof(q))
    ensures p == q
  {
    ProofsOfEncoding(data, cursor, p);
    ProofsOfEncoding(data, cursor, q);
  }

  /** Equal instruction data means equal VAA, message, proof and treasury: nothing runs into its neighbour. */
  lemma PackedIsDetermined(v: seq<byte>, u: Update, t: byte, v': seq<byte>, u': Update, t': byte)
    requires PackPostUpdate(v, u, t).Ok? && PackPostUpdate(v, u, t) == PackPostUpdate(v', u', t')
    ensures v == v' && u == u' && t == t'
  {
    hide PackPostUpdate, EncodeProof, ReadU32;
    var data := PackPostUpdate(v, u, t).value;
    PackedParts(data, v, u, t);
    PackedParts(data, v', u', t');
    var at := 4 + |v| + 4 + |u.message|;
    ProofIsDetermined(data, at + 4, u.proof, u'.proof);
  }

  lemma PackedParts(data: seq<byte>, v: seq<byte>, u: Update, t: byte)
    requires PackPostUpdate(v, u, t) == Ok(data)
    ensures ReadU32(data, 0) == Some(|v|) && At(data, 4, v)
    ensures var at := 4 + |v|; ReadU32(data, at) == Some(|u.message|) && At(data, at + 4, u.message)
    ensures var at := 8 + |v| + |u.message|; ReadU32(data, at) == Some(|u.proof|) && At(data, at + 4, EncodeProof(u.proof))
    ensures WellFormedProof(u.proof) && |data| == 13 + |v| + |u.message| + |EncodeProof(u.proof)| && data[|data| - 1] == t
  {
    hide EncodeProof, ReadU32, FromLE, U32;
    var proof := BorshVecFixed20(u.proof).value;
    var tail := proof + [t];
    var rest := U32(|u.message|) + u.message + tail;
    assert data == U32(|v|) + v + rest;
    assert At(data, 0, U32(|v|) + v + rest);
    BytesAt(data, 0, v, rest);
    BytesAt(data, 4 + |v|, u.message, tail);
    var at := 8 + |v| + |u.message|;
    AtConcat(data, at, proof, [t]);
    AtConcat(data, at, U32(|u.proof|), EncodeProof(u.proof));
    U32At(data, at, |u.proof|);
  }

  // ── The whole instruction ──

  datatype BuildError = NoAccumulator(parse: ParseError) | NoVaa(vaa: VaaError) | NoUpdate(matching: MatchError)

  datatype Instruction = Instruction(guardianSet: nat, data: seq<byte>)

  /** Every accumulator that parses packs: its VAA and messages are short and its proof items whole. */
  lemma ParsedPacks(update: seq<byte>, k: nat, m: byte, treasury: byte)
    requires Parse(update).Ok? && k < |Parse(update).value.updates| && Trim(Parse(update).value.vaa, m).Ok?
    ensures PackPostUpdate(Trim(Parse(update).value.vaa, m).value, Parse(update).value.updates[k], treasury).Ok?
  {
    var a := EncodeOfParse(update);
    EachWellFormed(a.updates, k);
  }

  lemma {:induction false} EachWellFormed(updates: seq<Update>, k: nat)
    requires WellFormedUpdates(updates) && k < |updates|
    ensures WellFormedUpdate(updates[k])
  {
    if k > 0 {
      EachWellFormed(updates[1..], k - 1);
    }
  }

  /**
   * _build_pyth_post_update_atomic_ix up to account derivation: the instruction
   * carries the VAA with its first five signatures and the first update of the feed.
   */
  method BuildPostUpdate(update: seq<byte>, feed: seq<byte>, treasury: byte)
    returns (r: Result<Instruction, BuildError>, ghost k: nat)
    ensures r.Err? && r.error.NoAccumulator? <==> Parse(update).Err?
    ensures r.Err? && r.error.NoVaa? <==> Parse(update).Ok? && Trim(Parse(update).value.vaa, 5).Err?
    ensures r.Ok? <==> Parse(update).Ok? && Trim(Parse(update).value.vaa, 5).Ok? && FirstMatch(Parse(update).value.updates, feed, k)
    ensures r.Ok? ==> Ok(r.value.guardianSet) == GuardianSetIndex(Parse(update).value.vaa)
    ensures r.Ok? ==> IsUpdateOf(Parse(update).value.updates, feed, k)
    ensures r.Ok? ==>
              Ok(r.value.data) == PackPostUpdate(Trim(Parse(update).value.vaa, 5).value, Parse(update).value.updates[k], treasury)
  {
    k := 0;
    var parsed := ParseAccumulatorUpdate(update);
    if parsed.Err? {
      return Err(NoAccumulator(parsed.error)), 0;
    }
    var trimmed := TrimSignatures(parsed.value.vaa, REDUCED_GUARDIAN_SIGNATURES);
    if trimmed.Err? {
      return Err(NoVaa(trimmed.error)), 0;
    }
    var matching;
    matching, k := MatchingUpdate(parsed.value.updates, feed);
    if matching.Err? {
      return Err(NoUpdate(matching.error)), k;
    }
    ParsedPacks(update, k, 5, treasury);
    var guardianSet := GuardianSetIndex(parsed.value.vaa);
    var proof := PackProof(matching.value.proof);
    var data := BorshBytes(trimmed.value).value + BorshBytes(matching.value.message).value + proof.value + [treasury];
    return Ok(Instruction(guardianSet.value, data)), k;
  }
}
