/**
 * Parsing a Pyth accumulator update (src/bots/solana_expiry_settler.py). The
 * program slices without looking at the length and checks the cursor once, at the
 * end; the point proved here is that this one check is enough.
 */
module PythAccumulator {
  import opened Bytes
  import opened Wrappers

  const MAGIC: seq<byte> := [0x50, 0x4e, 0x41, 0x55]
  const MAJOR_VERSION: byte := 1
  const MINOR_VERSION: byte := 0

  datatype Update = Update(message: seq<byte>, proof: seq<seq<byte>>)

  /** What an update carries; the parser returns the last two parts only. */
  datatype Accumulator = Accumulator(trailing: seq<byte>, proofType: byte, vaa: seq<byte>, updates: seq<Update>)

  datatype Parsed = Parsed(vaa: seq<byte>, updates: seq<Update>)

  datatype ParseError = InvalidHeader | MissingUpdates | IndexOutOfRange | TrailingBytes

  // ── The format ──

  predicate WellFormedProof(proof: seq<seq<byte>>) {
    proof == [] || (|proof[0]| == 20 && WellFormedProof(proof[1..]))
  }

  predicate WellFormedUpdate(u: Update) {
    |u.message| < 65536 && |u.proof| < 256 && WellFormedProof(u.proof)
  }

  predicate WellFormedUpdates(updates: seq<Update>) {
    updates == [] || (WellFormedUpdate(updates[0]) && WellFormedUpdates(updates[1..]))
  }

  predicate WellFormed(a: Accumulator) {
    |a.trailing| < 256 && |a.vaa| < 65536 && |a.updates| < 256 && WellFormedUpdates(a.updates)
  }

  lemma TwoBytes()
    ensures Pow256(2) == 65536
  {
    assert Pow256(1) == 256;
  }

  function Sized(s: seq<byte>): (r: seq<byte>)
    requires |s| < 65536
    ensures |r| == 2 + |s|
  {
    TwoBytes();
    ToBE(|s|, 2) + s
  }

  function EncodeProof(proof: seq<seq<byte>>): seq<byte> {
    if proof == [] then [] else proof[0] + EncodeProof(proof[1..])
  }

  function EncodeUpdate(u: Update): seq<byte>
    requires WellFormedUpdate(u)
  {
    Sized(u.message) + [|u.proof|] + EncodeProof(u.proof)
  }

  function EncodeUpdates(updates: seq<Update>): seq<byte>
    requires WellFormedUpdates(updates)
  {
    if updates == [] then [] else EncodeUpdate(updates[0]) + EncodeUpdates(updates[1..])
  }

  function EncodeHead(a: Accumulator): seq<byte>
    requires WellFormed(a)
  {
    MAGIC + [MAJOR_VERSION, MINOR_VERSION, |a.trailing|] + a.trailing + [a.proofType] + Sized(a.vaa) + [|a.updates|]
  }

  function Encode(a: Accumulator): seq<byte>
    requires WellFormed(a)
  {
    EncodeHead(a) + EncodeUpdates(a.updates)
  }

  // ── The parser, as the program computes it ──

  /** One update, or all that are left, with the cursor behind them; or an index past the end. */
  datatype One = One(update: Update, next: nat) | NoOne
  datatype Many = Many(updates: seq<Update>, next: nat) | NoMany

  function ReadProofs(data: seq<byte>, cursor: nat, n: nat): seq<seq<byte>>
    decreases n
  {
    if n == 0 then [] else [Slice(data, cursor, cursor + 20)] + ReadProofs(data, cursor + 20, n - 1)
  }

  function ReadSize(data: seq<byte>, cursor: nat): nat { FromBE(Slice(data, cursor, cursor + 2)) }

  function ReadUpdate(data: seq<byte>, cursor: nat): One {
    var from := cursor + 2;
    var to := from + ReadSize(data, cursor);
    if to >= |data| then NoOne
    else
      var n: nat := data[to];
      One(Update(Slice(data, from, to), ReadProofs(data, to + 1, n)), to + 1 + 20 * n)
  }

  function ReadUpdates(data: seq<byte>, cursor: nat, n: nat): Many
    decreases n
  {
    if n == 0 then Many([], cursor)
    else
      match ReadUpdate(data, cursor)
      case NoOne => NoMany
      case One(u, next) => After([u], ReadUpdates(data, next, n - 1))
  }

  /** What is still to be read, put behind what was read. */
  function After(done: seq<Update>, rest: Many): Many {
    match rest
    case NoMany => NoMany
    case Many(updates, next) => Many(done + updates, next)
  }

  predicate HeaderOk(data: seq<byte>) {
    |data| >= 11 && data[..4] == MAGIC && data[4] == MAJOR_VERSION && data[5] == MINOR_VERSION
  }

  /** Where the length of the VAA is written. */
  function VaaAt(data: seq<byte>): nat
    requires HeaderOk(data)
  {
    var trailing: nat := data[6];
    6 + 1 + trailing + 1
  }

  function Parse(data: seq<byte>): Result<Parsed, ParseError> {
    if !HeaderOk(data) then Err(InvalidHeader)
    else
      var from := VaaAt(data) + 2;
      var to := from + ReadSize(data, VaaAt(data));
      if to >= |data| then Err(MissingUpdates)
      else Finish(Slice(data, from, to), ReadUpdates(data, to + 1, data[to]), |data|)
  }

  /** The one length check, at the end. */
  function Finish(vaa: seq<byte>, updates: Many, length: nat): Result<Parsed, ParseError> {
    match updates
    case NoMany => Err(IndexOutOfRange)
    case Many(updates, end) => if end != length then Err(TrailingBytes) else Ok(Parsed(vaa, updates))
  }

  /** _parse_pyth_accumulator_update, with its cursor and nested loops. */
  method ParseAccumulatorUpdate(data: seq<byte>) returns (r: Result<Parsed, ParseError>)
    ensures r == Parse(data)
  {
    hide ReadUpdates;
    if !HeaderOk(data) {
      return Err(InvalidHeader);
    }
    var cursor: nat := 6;
    var trailingPayloadSize: nat := data[cursor];
    cursor := cursor + 1 + trailingPayloadSize;
    cursor := cursor + 1;
    var vaaSize := FromBE(Slice(data, cursor, cursor + 2));
    cursor := cursor + 2;
    var vaa := Slice(data, cursor, cursor + vaaSize);
    cursor := cursor + vaaSize;
    if cursor >= |data| {
      return Err(MissingUpdates);
    }
    var read := ReadUpdateLoop(data, cursor + 1, data[cursor]);
    match read
    case NoMany => return Err(IndexOutOfRange);
    case Many(updates, end) =>
      if end != |data| {
        return Err(TrailingBytes);
      }
      return Ok(Parsed(vaa, updates));
  }

  /** The outer loop, over the updates. */
  method ReadUpdateLoop(data: seq<byte>, start: nat, numUpdates: nat) returns (r: Many)
    ensures r == ReadUpdates(data, start, numUpdates)
  {
    var cursor: nat, updates := start, [];
    AfterNothing(ReadUpdates(data, start, numUpdates));
    for i := 0 to numUpdates
      invariant ReadUpdates(data, start, numUpdates) == After(updates, ReadUpdates(data, cursor, numUpdates - i))
    {
      var one := ReadUpdateBody(data, cursor);
      if one.NoOne? {
        return NoMany;
      }
      LoopStep(data, start, numUpdates, updates, cursor, numUpdates - i, one.update, one.next);
      cursor, updates := one.next, updates + [one.update];
    }
    return Many(updates, cursor);
  }

  /** One pass of the outer loop; the only read that can fail is the count of proof items. */
  method ReadUpdateBody(data: seq<byte>, start: nat) returns (r: One)
    ensures r == ReadUpdate(data, start)
  {
    var cursor := start;
    var messageSize := FromBE(Slice(data, cursor, cursor + 2));
    cursor := cursor + 2;
    var message := Slice(data, cursor, cursor + messageSize);
    cursor := cursor + messageSize;
    if cursor >= |data| {
      return NoOne;
    }
    var numProofs: nat := data[cursor];
    cursor := cursor + 1;
    var proof := ReadProofLoop(data, cursor, numProofs);
    return One(Update(message, proof), cursor + 20 * numProofs);
  }

  /** The inner loop over the proof items. */
  method ReadProofLoop(data: seq<byte>, start: nat, numProofs: nat) returns (proof: seq<seq<byte>>)
    ensures proof == ReadProofs(data, start, numProofs)
  {
    proof := [];
    var cursor := start;
    for i := 0 to numProofs
      invariant cursor == start + 20 * i
      invariant ReadProofs(data, start, numProofs) == proof + ReadProofs(data, cursor, numProofs - i)
    {
      proof := proof + [Slice(data, cursor, cursor + 20)];
      cursor := cursor + 20;
    }
  }

  lemma AfterNothing(rest: Many)
    ensures After([], rest) == rest
  {
    if rest.Many? {
      assert [] + rest.updates == rest.updates;
    }
  }

  lemma LoopStep(data: seq<byte>, start: nat, n: nat, done: seq<Update>, cursor: nat, left: nat, u: Update, next: nat)
    requires left > 0 && ReadUpdates(data, start, n) == After(done, ReadUpdates(data, cursor, left))
    requires ReadUpdate(data, cursor) == One(u, next)
    ensures ReadUpdates(data, start, n) == After(done + [u], ReadUpdates(data, next, left - 1))
  {
    var rest := ReadUpdates(data, next, left - 1);
    if rest.Many? {
      assert done + ([u] + rest.updates) == (done + [u]) + rest.updates;
    }
  }

  // ── Accepted strings are full encodings ──

  lemma EncodeProofCons(item: seq<byte>, rest: seq<seq<byte>>)
    ensures |item| == 20 && WellFormedProof(rest) ==> WellFormedProof([item] + rest)
    ensures EncodeProof([item] + rest) == item + EncodeProof(rest)
  {
    assert ([item] + rest)[1..] == rest;
  }

  lemma {:induction false} ProofsReadBack(data: seq<byte>, cursor: nat, n: nat)
    requires cursor + 20 * n <= |data|
    ensures var proof := ReadProofs(data, cursor, n);
            && |proof| == n && WellFormedProof(proof)
            && |EncodeProof(proof)| == 20 * n && At(data, cursor, EncodeProof(proof))
    decreases n
  {
    if n > 0 {
      var item, rest := data[cursor..cursor + 20], ReadProofs(data, cursor + 20, n - 1);
      ProofsReadBack(data, cursor + 20, n - 1);
      EncodeProofCons(item, rest);
      AtConcat(data, cursor, item, EncodeProof(rest));
    }
  }

  lemma SizeReadBack(data: seq<byte>, cursor: nat)
    requires cursor + 2 + ReadSize(data, cursor) <= |data|
    ensures var s := Slice(data, cursor + 2, cursor + 2 + ReadSize(data, cursor));
            |s| == ReadSize(data, cursor) < 65536 && At(data, cursor, Sized(s))
  {
    TwoBytes();
    var size := data[cursor..cursor + 2];
    ToFromBE(size);
    AtConcat(data, cursor, size, data[cursor + 2..cursor + 2 + FromBE(size)]);
  }

  lemma UpdateReadBack(data: seq<byte>, cursor: nat)
    requires ReadUpdate(data, cursor).One? && ReadUpdate(data, cursor).next <= |data|
    ensures var r := ReadUpdate(data, cursor);
            && WellFormedUpdate(r.update) && r.next == cursor + |EncodeUpdate(r.update)|
            && At(data, cursor, EncodeUpdate(r.update))
  {
    var u := ReadUpdate(data, cursor).update;
    SizeReadBack(data, cursor);
    var to := cursor + |Sized(u.message)|;
    ProofsReadBack(data, to + 1, data[to]);
    AtConcat(data, cursor, Sized(u.message), [|u.proof|]);
    AtConcat(data, cursor, Sized(u.message) + [|u.proof|], EncodeProof(u.proof));
  }

  lemma EncodeUpdatesCons(u: Update, rest: seq<Update>)
    requires WellFormedUpdate(u) && WellFormedUpdates(rest)
    ensures WellFormedUpdates([u] + rest) && EncodeUpdates([u] + rest) == EncodeUpdate(u) + EncodeUpdates(rest)
  {
    assert ([u] + rest)[1..] == rest;
  }

  /** The cursor only moves forward, so a last cursor inside the string puts every slice inside it. */
  lemma {:induction false} UpdatesReadBack(data: seq<byte>, cursor: nat, n: nat)
    requires ReadUpdates(data, cursor, n).Many? && ReadUpdates(data, cursor, n).next <= |data|
    ensures var read := ReadUpdates(data, cursor, n);
            && |read.updates| == n && WellFormedUpdates(read.updates)
            && read.next == cursor + |EncodeUpdates(read.updates)| && At(data, cursor, EncodeUpdates(read.updates))
    decreases n
  {
    hide ReadUpdate, EncodeUpdate, WellFormedUpdate;
    if n > 0 {
      var One(u, next) := ReadUpdate(data, cursor);
      var rest := ReadUpdates(data, next, n - 1).updates;
      UpdatesReadBack(data, next, n - 1);
      UpdateReadBack(data, cursor);
      EncodeUpdatesCons(u, rest);
      AtConcat(data, cursor, EncodeUpdate(u), EncodeUpdates(rest));
    }
  }

  lemma HeadReadBack(data: seq<byte>, updates: seq<Update>) returns (a: Accumulator)
    requires HeaderOk(data)
    requires var to := VaaAt(data) + 2 + ReadSize(data, VaaAt(data)); to < |data| && |updates| == data[to]
    requires WellFormedUpdates(updates)
    ensures WellFormed(a) && a.updates == updates && At(data, 0, EncodeHead(a))
    ensures var from := VaaAt(data) + 2; a.vaa == Slice(data, from, from + ReadSize(data, VaaAt(data)))
    ensures |EncodeHead(a)| == VaaAt(data) + 3 + ReadSize(data, VaaAt(data))
  {
    hide Sized, EncodeUpdates, WellFormedUpdates;
    var at := VaaAt(data);
    var to := at + 2 + ReadSize(data, at);
    SizeReadBack(data, at);
    a := Accumulator(data[7..at - 1], data[at - 1], data[at + 2..to], updates);
    var start := MAGIC + [MAJOR_VERSION, MINOR_VERSION, |a.trailing|];
    assert data[0..7] == data[..4] + [data[4], data[5], data[6]] == start;
    AtConcat(data, 0, start, a.trailing);
    AtConcat(data, 0, start + a.trailing, [a.proofType]);
    AtConcat(data, 0, start + a.trailing + [a.proofType], Sized(a.vaa));
    AtConcat(data, 0, start + a.trailing + [a.proofType] + Sized(a.vaa), [|updates|]);
  }

  /** Re-encoding what was parsed, with the two parts the parser skips, gives the input back. */
  lemma EncodeOfParse(data: seq<byte>) returns (a: Accumulator)
    requires Parse(data).Ok?
    ensures WellFormed(a) && Encode(a) == data && Parse(data) == Ok(Parsed(a.vaa, a.updates))
  {
    hide ReadUpdates, EncodeHead, EncodeUpdates, WellFormedUpdates;
    var to := VaaAt(data) + 2 + ReadSize(data, VaaAt(data));
    UpdatesReadBack(data, to + 1, data[to]);
    a := HeadReadBack(data, Parse(data).value.updates);
    AtConcat(data, 0, EncodeHead(a), EncodeUpdates(a.updates));
  }

  // ── Encodings are accepted, and their parts come back ──

  lemma {:induction false} ProofsOfEncoding(data: seq<byte>, cursor: nat, proof: seq<seq<byte>>)
    requires WellFormedProof(proof) && At(data, cursor, EncodeProof(proof))
    ensures |EncodeProof(proof)| == 20 * |proof| && ReadProofs(data, cursor, |proof|) == proof
    decreases |proof|
  {
    if proof != [] {
      AtConcat(data, cursor, proof[0], EncodeProof(proof[1..]));
      ProofsOfEncoding(data, cursor + 20, proof[1..]);
      assert proof == [proof[0]] + proof[1..];
    }
  }

  lemma SizeOfEncoding(data: seq<byte>, cursor: nat, s: seq<byte>)
    requires |s| < 65536 && At(data, cursor, Sized(s))
    ensures ReadSize(data, cursor) == |s| && Slice(data, cursor + 2, cursor + 2 + |s|) == s
  {
    TwoBytes();
    AtConcat(data, cursor, ToBE(|s|, 2), s);
    FromToBE(|s|, 2);
  }

  lemma PartsOfUpdate(data: seq<byte>, cursor: nat, u: Update)
    requires WellFormedUpdate(u) && At(data, cursor, EncodeUpdate(u))
    ensures var to := cursor + 2 + |u.message|;
            && At(data, cursor, Sized(u.message)) && to < |data| && data[to] == |u.proof|
            && At(data, to + 1, EncodeProof(u.proof))
  {
    AtConcat(data, cursor, Sized(u.message) + [|u.proof|], EncodeProof(u.proof));
    AtConcat(data, cursor, Sized(u.message), [|u.proof|]);
    var to := cursor + |Sized(u.message)|;
    assert data[to] == data[to..to + 1][0] == |u.proof|;
  }

  lemma UpdateOfEncoding(data: seq<byte>, cursor: nat, u: Update)
    requires WellFormedUpdate(u) && At(data, cursor, EncodeUpdate(u))
    ensures ReadUpdate(data, cursor) == One(u, cursor + |EncodeUpdate(u)|)
  {
    PartsOfUpdate(data, cursor, u);
    SizeOfEncoding(data, cursor, u.message);
    ProofsOfEncoding(data, cursor + 3 + |u.message|, u.proof);
  }

  lemma ReadUpdatesStep(data: seq<byte>, cursor: nat, n: nat, u: Update, next: nat, rest: seq<Update>, end: nat)
    requires n > 0 && ReadUpdate(data, cursor) == One(u, next) && ReadUpdates(data, next, n - 1) == Many(rest, end)
    ensures ReadUpdates(data, cursor, n) == Many([u] + rest, end)
  {}

  lemma FirstOfEncoding(data: seq<byte>, cursor: nat, u: Update, rest: seq<Update>)
    requires WellFormedUpdate(u) && WellFormedUpdates(rest) && At(data, cursor, EncodeUpdate(u) + EncodeUpdates(rest))
    ensures ReadUpdate(data, cursor) == One(u, cursor + |EncodeUpdate(u)|)
    ensures At(data, cursor + |EncodeUpdate(u)|, EncodeUpdates(rest))
  {
    AtConcat(data, cursor, EncodeUpdate(u), EncodeUpdates(rest));
    UpdateOfEncoding(data, cursor, u);
  }

  lemma {:induction false} UpdatesOfEncoding(data: seq<byte>, cursor: nat, updates: seq<Update>)
    requires WellFormedUpdates(updates) && At(data, cursor, EncodeUpdates(updates))
    ensures ReadUpdates(data, cursor, |updates|) == Many(updates, cursor + |EncodeUpdates(updates)|)
    decreases |updates|
  {
    hide ReadUpdate, EncodeUpdate, WellFormedUpdate;
    if updates != [] {
      var u, rest := updates[0], updates[1..];
      var next := cursor + |EncodeUpdate(u)|;
      FirstOfEncoding(data, cursor, u, rest);
      UpdatesOfEncoding(data, next, rest);
      ReadUpdatesStep(data, cursor, |updates|, u, next, rest, next + |EncodeUpdates(rest)|);
      assert updates == [u] + rest;
    }
  }

  lemma HeadOfEncoding(data: seq<byte>, a: Accumulator)
    requires WellFormed(a) && At(data, 0, EncodeHead(a))
    ensures HeaderOk(data) && VaaAt(data) + 3 + |a.vaa| == |EncodeHead(a)| && ReadSize(data, VaaAt(data)) == |a.vaa|
    ensures var from := VaaAt(data) + 2; Slice(data, from, from + |a.vaa|) == a.vaa && data[from + |a.vaa|] == |a.updates|
  {
    var start := MAGIC + [MAJOR_VERSION, MINOR_VERSION, |a.trailing|];
    var before := start + a.trailing + [a.proofType];
    AtConcat(data, 0, before + Sized(a.vaa), [|a.updates|]);
    AtConcat(data, 0, before, Sized(a.vaa));
    AtConcat(data, 0, start + a.trailing, [a.proofType]);
    AtConcat(data, 0, start, a.trailing);
    HeaderOfEncoding(data, |a.trailing|);
    SizeOfEncoding(data, |before|, a.vaa);
    var to := |before| + |Sized(a.vaa)|;
    assert data[to] == data[to..to + 1][0];
  }

  lemma HeaderOfEncoding(data: seq<byte>, trailing: byte)
    requires |data| >= 11 && At(data, 0, MAGIC + [MAJOR_VERSION, MINOR_VERSION, trailing])
    ensures HeaderOk(data) && data[6] == trailing
  {
    var start := MAGIC + [MAJOR_VERSION, MINOR_VERSION, trailing];
    assert data[0..7] == start;
    assert data[..4] == data[0..7][..4] == MAGIC;
    assert data[4] == data[0..7][4] && data[5] == data[0..7][5] && data[6] == data[0..7][6];
  }

  lemma ParseOfEncode(a: Accumulator)
    requires WellFormed(a)
    ensures Parse(Encode(a)) == Ok(Parsed(a.vaa, a.updates))
  {
    hide ReadUpdates, EncodeUpdates, WellFormedUpdates;
    var data, head, body := Encode(a), EncodeHead(a), EncodeUpdates(a.updates);
    assert data[0..|data|] == data;
    AtConcat(data, 0, head, body);
    HeadOfEncoding(data, a);
    UpdatesOfEncoding(data, |head|, a.updates);
  }

  /** Accepted exactly when the whole string is an encoding: no slice was cut short. */
  lemma AcceptsExactly(data: seq<byte>)
    ensures Parse(data).Ok? <==> exists a :: WellFormed(a) && Encode(a) == data
    ensures forall a :: WellFormed(a) && Encode(a) == data ==> Parse(data) == Ok(Parsed(a.vaa, a.updates))
  {
    forall a | WellFormed(a) && Encode(a) == data ensures Parse(data) == Ok(Parsed(a.vaa, a.updates)) {
      ParseOfEncode(a);
    }
    if Parse(data).Ok? {
      var a := EncodeOfParse(data);
    }
  }

  /** Hence the format is unambiguous in everything the program goes on to use. */
  lemma EncodingIsUnambiguous(a: Accumulator, b: Accumulator)
    requires WellFormed(a) && WellFormed(b) && Encode(a) == Encode(b)
    ensures a.vaa == b.vaa && a.updates == b.updates
  {
    ParseOfEncode(a);
    ParseOfEncode(b);
  }
}
