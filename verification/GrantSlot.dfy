/**
 * The process-wide slot for a one-time identity grant: one atomic reference that any number of offers,
 * takes and clears access concurrently, one access per step.
 */
module GrantSlot {
  import opened Prelude
  import Text

  const MINIMUM_GRANT_BYTES := 16
  const MAXIMUM_GRANT_BYTES := 65_536

  /** The nine bootstrap coordinates, of which the slot interprets only the digest. */
  datatype Coordinates = Coordinates(identity: seq<string>, grantSha256: string)

  datatype Grant = Grant(coordinates: Coordinates, token: string)

  datatype Slot = Empty | Staging | Pending(grant: Grant) | Terminal

  // ---------- What may be staged ----------

  predicate IsSegmentChar(c: char) {
    'a' <= c <= 'z' || 'A' <= c <= 'Z' || '0' <= c <= '9' || c == '-' || c == '_'
  }

  predicate IsSegment(s: string) {
    0 < |s| <= 32_768 && forall i :: 0 <= i < |s| ==> IsSegmentChar(s[i])
  }

  predicate IsWhitespace(c: char) {
    c == ' ' || 0x09 <= c as int <= 0x0d || 0x1c <= c as int <= 0x1f
  }

  predicate ValidIdentityJwt(value: string) {
    && 16 <= |value| <= 65_536 && (forall i :: 0 <= i < |value| ==> !IsWhitespace(value[i]))
    && var segments := Text.Split(value, '.');
       |segments| == 3 && IsSegment(segments[0]) && IsSegment(segments[1]) && IsSegment(segments[2])
  }

  /** The characters of the bytes, read as US-ASCII with a replacement character outside the range. */
  function AsciiText(bytes: seq<byte>): (s: string)
    ensures |s| == |bytes|
  {
    if bytes == [] then []
    else
      var code: int := bytes[0];
      [if code < 0x80 then code as char else 0xfffd as char] + AsciiText(bytes[1..])
  }

  /** The bytes of the characters, with a question mark outside US-ASCII. */
  function AsciiBytes(s: string): (bytes: seq<byte>)
    ensures |bytes| == |s|
  {
    if s == [] then []
    else
      var code := s[0] as int;
      [if code < 0x80 then code else 0x3f] + AsciiBytes(s[1..])
  }

  /** Everything an offer checks about the bytes before it stages them. */
  predicate Acceptable(sha256: seq<byte> -> string, coordinates: Coordinates, bytes: seq<byte>) {
    && MINIMUM_GRANT_BYTES <= |bytes| <= MAXIMUM_GRANT_BYTES
    && sha256(bytes) == coordinates.grantSha256
    && AsciiBytes(AsciiText(bytes)) == bytes
    && ValidIdentityJwt(AsciiText(bytes))
  }

  /** A grant whose token has the digest its coordinates announce. */
  predicate GrantOk(sha256: seq<byte> -> string, g: Grant) {
    sha256(AsciiBytes(g.token)) == g.coordinates.grantSha256 && ValidIdentityJwt(g.token)
  }

  // ---------- Processes and steps ----------

  datatype Process =
    | Offering(coordinates: Coordinates, bytes: seq<byte>)
    | Staged(coordinates: Coordinates, bytes: seq<byte>)
    | OfferFailing
    | OfferEnded(staged: bool)
    | Taking(expected: Coordinates)
    | Read(expected: Coordinates, seen: Grant)
    | TakeEnding(expected: Coordinates, result: Option<Grant>)
    | TakeEnded(expected: Coordinates, result: Option<Grant>)
    | Clearing
    | Cleared

  datatype State = State(slot: Slot, procs: seq<Process>)

  datatype Event =
    | Begin(process: Process)
    /** One access to the reference; `late` lets a wait time out, or drop a result at the deadline. */
    | Step(p: nat, late: bool)

  function Advance(sha256: seq<byte> -> string, slot: Slot, process: Process, late: bool): (Slot, Process) {
    match process
    case Offering(coordinates, bytes) =>
      if slot == Empty then (Staging, Staged(coordinates, bytes)) else (slot, OfferFailing)
    case Staged(coordinates, bytes) =>
      if !Acceptable(sha256, coordinates, bytes) || slot != Staging then (slot, OfferFailing)
      else (Pending(Grant(coordinates, AsciiText(bytes))), OfferEnded(true))
    case OfferFailing => (Terminal, OfferEnded(false))
    case Taking(expected) =>
      if late || slot == Terminal then (slot, TakeEnding(expected, None))
      else if slot.Pending? then (slot, Read(expected, slot.grant))
      else (slot, process)
    case Read(expected, seen) =>
      if slot == Pending(seen) then
        (Terminal, TakeEnding(expected, if seen.coordinates == expected && !late then Some(seen) else None))
      else (slot, Taking(expected))
    case TakeEnding(expected, result) => (Terminal, TakeEnded(expected, result))
    case Clearing => (Terminal, Cleared)
    case _ => (slot, process)
  }

  predicate Starts(process: Process) {
    process.Offering? || process.Taking? || process.Clearing?
  }

  predicate Enabled(s: State, e: Event) {
    if e.Begin? then Starts(e.process) else e.p < |s.procs|
  }

  function Next(sha256: seq<byte> -> string, s: State, e: Event): State
    requires Enabled(s, e)
  {
    if e.Begin? then State(s.slot, s.procs + [e.process])
    else
      var (slot, process) := Advance(sha256, s.slot, s.procs[e.p], e.late);
      State(slot, s.procs[e.p := process])
  }

  predicate Run(sha256: seq<byte> -> string, run: seq<State>, es: seq<Event>) {
    && |run| == |es| + 1 && run[0] == State(Empty, [])
    && forall i :: 0 <= i < |es| ==> Enabled(run[i], es[i]) && run[i + 1] == Next(sha256, run[i], es[i])
  }

  // ---------- What every step keeps ----------

  /** The slot only moves forward, and the terminal state has no way out. */
  function Rank(slot: Slot): nat {
    match slot
    case Empty => 0
    case Staging => 1
    case Pending(_) => 2
    case Terminal => 3
  }

  function Result(process: Process): Option<Grant> {
    if process.TakeEnding? || process.TakeEnded? then process.result else None
  }

  /** An offer that failed, a take or a clear that has returned. */
  predicate EndsSlot(process: Process) {
    process == OfferEnded(false) || process.TakeEnded? || process.Cleared?
  }

  /** What a process knows about the grants it holds, and about the slot once it has returned. */
  predicate ProcessOk(sha256: seq<byte> -> string, slot: Slot, process: Process) {
    && (Result(process).Some? ==>
          && slot == Terminal && GrantOk(sha256, process.result.value)
          && process.result.value.coordinates == process.expected)
    && (process.Read? ==> GrantOk(sha256, process.seen) && Rank(slot) >= 2)
    && (EndsSlot(process) ==> slot == Terminal)
  }

  predicate OneResult(procs: seq<Process>) {
    forall p, q :: 0 <= p < q < |procs| ==> Result(procs[p]).None? || Result(procs[q]).None?
  }

  predicate Inv(sha256: seq<byte> -> string, s: State) {
    && (s.slot.Pending? ==> GrantOk(sha256, s.slot.grant))
    && OneResult(s.procs)
    && forall p :: 0 <= p < |s.procs| ==> ProcessOk(sha256, s.slot, s.procs[p])
  }

  lemma StagedIsOk(sha256: seq<byte> -> string, coordinates: Coordinates, bytes: seq<byte>)
    requires Acceptable(sha256, coordinates, bytes)
    ensures GrantOk(sha256, Grant(coordinates, AsciiText(bytes)))
  {
  }

  lemma AdvanceOk(sha256: seq<byte> -> string, slot: Slot, process: Process, late: bool)
    requires slot.Pending? ==> GrantOk(sha256, slot.grant)
    requires ProcessOk(sha256, slot, process)
    ensures var (slot', process') := Advance(sha256, slot, process, late);
      && (slot'.Pending? ==> GrantOk(sha256, slot'.grant)) && ProcessOk(sha256, slot', process')
      && Rank(slot) <= Rank(slot') && (slot == Terminal ==> slot' == Terminal)
      && (Result(process').Some? && Result(process).None? ==> slot.Pending?)
      && (Result(process).Some? ==> Result(process') == Result(process))
  {
    hide GrantOk, Acceptable;
    if process.Staged? && Acceptable(sha256, process.coordinates, process.bytes) {
      StagedIsOk(sha256, process.coordinates, process.bytes);
    }
  }

  lemma InvNext(sha256: seq<byte> -> string, s: State, e: Event)
    requires Inv(sha256, s) && Enabled(s, e)
    ensures Inv(sha256, Next(sha256, s, e)) && Rank(s.slot) <= Rank(Next(sha256, s, e).slot)
    ensures s.slot == Terminal ==> Next(sha256, s, e).slot == Terminal
  {
    hide GrantOk, Advance;
    if e.Step? {
      AdvanceOk(sha256, s.slot, s.procs[e.p], e.late);
      var s' := Next(sha256, s, e);
      forall q | 0 <= q < |s'.procs| ensures ProcessOk(sha256, s'.slot, s'.procs[q]) {
        assert q != e.p ==> s'.procs[q] == s.procs[q];
      }
      forall p, q | 0 <= p < q < |s'.procs| ensures Result(s'.procs[p]).None? || Result(s'.procs[q]).None? {
        assert p != e.p ==> s'.procs[p] == s.procs[p] && ProcessOk(sha256, s.slot, s.procs[p]);
        assert q != e.p ==> s'.procs[q] == s.procs[q] && ProcessOk(sha256, s.slot, s.procs[q]);
      }
    }
  }

  lemma {:induction false} RunInv(sha256: seq<byte> -> string, run: seq<State>, es: seq<Event>, k: nat)
    requires Run(sha256, run, es) && k < |run|
    ensures Inv(sha256, run[k])
  {
    if k > 0 {
      hide Next, Inv;
      RunInv(sha256, run, es, k - 1);
      InvNext(sha256, run[k - 1], es[k - 1]);
    } else {
      assert Inv(sha256, run[0]);
    }
  }

  /** Once terminal, the slot stays terminal, whatever is offered, taken or cleared. */
  lemma {:induction false} TerminalAbsorbs(sha256: seq<byte> -> string, run: seq<State>, es: seq<Event>, i: nat, j: nat)
    requires Run(sha256, run, es) && i <= j < |run| && run[i].slot == Terminal
    ensures run[j].slot == Terminal
    decreases j
  {
    hide Next, Inv;
    if i < j {
      TerminalAbsorbs(sha256, run, es, i, j - 1);
      RunInv(sha256, run, es, j - 1);
      InvNext(sha256, run[j - 1], es[j - 1]);
    }
  }

  /** From the return of a clear, of a take or of a failed offer on, the slot is and stays terminal. */
  lemma ReturnedIsTerminal(sha256: seq<byte> -> string, run: seq<State>, es: seq<Event>, i: nat, j: nat, p: nat)
    requires Run(sha256, run, es) && i <= j < |run| && p < |run[i].procs| && EndsSlot(run[i].procs[p])
    ensures run[j].slot == Terminal
  {
    RunInv(sha256, run, es, i);
    assert ProcessOk(sha256, run[i].slot, run[i].procs[p]);
    TerminalAbsorbs(sha256, run, es, i, j);
  }

  /**
   * A staged grant leaves the slot for good: to a taker that read it, which gets it if the coordinates are its
   * own and the deadline has not passed, or unseen when a clear, a failed offer or an unsuccessful take returns.
   */
  lemma GrantLeaves(sha256: seq<byte> -> string, run: seq<State>, es: seq<Event>, k: nat)
    requires Run(sha256, run, es) && k < |es| && run[k].slot.Pending? && run[k + 1].slot != run[k].slot
    ensures run[k + 1].slot == Terminal && es[k].Step?
    ensures var grant, before, after := run[k].slot.grant, run[k].procs[es[k].p], run[k + 1].procs[es[k].p];
      if before.Read? then
        var delivered := if grant.coordinates == before.expected && !es[k].late then Some(grant) else None;
        after == TakeEnding(before.expected, delivered)
      else EndsSlot(after) && Result(after).None?
  {
    hide GrantOk, ValidIdentityJwt;
    RunInv(sha256, run, es, k);
    assert ProcessOk(sha256, run[k].slot, run[k].procs[es[k].p]);
  }

  /**
   * In every interleaving at most one take returns a grant, and that grant's bytes hash to its own
   * coordinates, which are the taker's.
   */
  lemma OneGrantEver(sha256: seq<byte> -> string, run: seq<State>, es: seq<Event>, k: nat, p: nat)
    requires Run(sha256, run, es) && k < |run| && p < |run[k].procs|
    requires run[k].procs[p].TakeEnded? && run[k].procs[p].result.Some?
    ensures var grant, expected := run[k].procs[p].result.value, run[k].procs[p].expected;
      grant.coordinates == expected && sha256(AsciiBytes(grant.token)) == expected.grantSha256
      && ValidIdentityJwt(grant.token)
    ensures forall q :: 0 <= q < |run[k].procs| && q != p ==> Result(run[k].procs[q]).None?
    ensures run[k].slot == Terminal
  {
    hide ValidIdentityJwt, Next;
    RunInv(sha256, run, es, k);
    assert ProcessOk(sha256, run[k].slot, run[k].procs[p]);
    forall q | 0 <= q < |run[k].procs| && q != p ensures Result(run[k].procs[q]).None? {
      assert Result(run[k].procs[p]).Some?;
    }
  }

  /** The comparison with the re-encoded text accepts exactly US-ASCII. */
  lemma {:induction false} AsciiRoundTrip(bytes: seq<byte>)
    ensures AsciiBytes(AsciiText(bytes)) == bytes <==> forall i :: 0 <= i < |bytes| ==> bytes[i] < 0x80
  {
    if bytes != [] {
      AsciiRoundTrip(bytes[1..]);
      var again := AsciiBytes(AsciiText(bytes));
      assert AsciiText(bytes)[1..] == AsciiText(bytes[1..]);
      assert again[1..] == AsciiBytes(AsciiText(bytes[1..]));
      assert [again[0]] + again[1..] == again && [bytes[0]] + bytes[1..] == bytes;
      if again == bytes {
        forall i | 0 <= i < |bytes| ensures bytes[i] < 0x80 {
          assert i > 0 ==> bytes[1..][i - 1] == bytes[i];
        }
      }
    }
  }

  // ---------- The object ----------

  class GrantSlotState {
    var state: Slot

    constructor ()
      ensures state == Empty
    {
      state := Empty;
    }

    /** Stages acceptable bytes in an empty slot, otherwise ends the slot; the buffer is wiped either way. */
    method Offer(sha256: seq<byte> -> string, coordinates: Coordinates, bytes: array<byte>) returns (ok: bool)
      modifies this, bytes
      ensures ok <==> old(state) == Empty && old(Acceptable(sha256, coordinates, bytes[..]))
      ensures state == if ok then Pending(Grant(coordinates, old(AsciiText(bytes[..])))) else Terminal
      ensures forall i :: 0 <= i < bytes.Length ==> bytes[i] == 0
    {
      ok := state == Empty;
      if ok {
        state := Staging;
        var token := AsciiText(bytes[..]);
        ok := Acceptable(sha256, coordinates, bytes[..]);
        state := if ok then Pending(Grant(coordinates, token)) else Terminal;
      } else {
        state := Terminal;
      }
      for i := 0 to bytes.Length
        modifies bytes
        invariant forall k :: 0 <= k < i ==> bytes[k] == 0
      {
        bytes[i] := 0;
      }
    }

    /** Ends the slot, and hands out a pending grant to the taker it was made for. */
    method Take(expected: Coordinates) returns (grant: Option<Grant>)
      modifies this
      ensures state == Terminal
      ensures grant == if old(state).Pending? && old(state).grant.coordinates == expected
                       then Some(old(state).grant) else None
    {
      grant := None;
      if state.Pending? {
        var current := state.grant;
        state := Terminal;
        if current.coordinates == expected {
          grant := Some(current);
        }
      }
      state := Terminal;
    }

    method Clear()
      modifies this
      ensures state == Terminal
    {
      state := Terminal;
    }
  }

  /** Hands its token out once. */
  class OneUseIdentityTokenProvider {
    var pending: Option<string>

    constructor (token: string)
      ensures pending == Some(token)
    {
      pending := Some(token);
    }

    method IdentityToken() returns (token: Option<string>)
      modifies this
      ensures token == old(pending) && pending == None
    {
      token := pending;
      pending := None;
    }

    method Clear()
      modifies this
      ensures pending == None
    {
      pending := None;
    }
  }

  /** A grant that was offered is delivered once: the second take and the second token request get nothing. */
  method DeliverOnce(sha256: seq<byte> -> string, coordinates: Coordinates, bytes: array<byte>)
    returns (first: Option<string>, second: Option<string>, again: Option<Grant>)
    modifies bytes
    ensures second.None? && again.None?
    ensures first == if old(Acceptable(sha256, coordinates, bytes[..])) then Some(old(AsciiText(bytes[..]))) else None
  {
    var slot := new GrantSlotState();
    var _ := slot.Offer(sha256, coordinates, bytes);
    var grant := slot.Take(coordinates);
    again := slot.Take(coordinates);
    first, second := None, None;
    if grant.Some? {
      var provider := new OneUseIdentityTokenProvider(grant.value.token);
      first := provider.IdentityToken();
      second := provider.IdentityToken();
    }
  }
}
