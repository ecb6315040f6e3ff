/**
 * The handler set of app/routes.py ("variant B"): the registry maps each id to a record
 * holding the id and its password, and the ledger stores each submission exactly as the
 * client sent it, with no timestamp. Submission checks that the custodian exists, then
 * that the client's hash equals the digest the server computes; it never looks at the
 * password.
 */
module RoutesApi {
  import opened Outcomes
  import Trace

  /** SHA-256 of the UTF-8 bytes of a string, rendered as hex, taken as a parameter. */
  type Digest = string -> string

  /** The `{"id", "password"}` dict stored per custodian. */
  datatype CustodianEntry = CustodianEntry(id: string, password: string)

  /** A submission as sent by the client; the ledger stores it as it is. */
  datatype ShareInput = ShareInput(custodianId: string, shareData: string, shareHash: string)

  /** The router's own `custodians` dict and `shares` list. */
  datatype Store = Store(custodians: map<string, CustodianEntry>, shares: seq<ShareInput>)

  /** t can follow s: no id has left the registry, no entry was replaced,
      and the ledger only grew at its end. */
  predicate Extends(s: Store, t: Store) {
    && s.custodians.Keys <= t.custodians.Keys
    && (forall id :: id in s.custodians ==> t.custodians[id] == s.custodians[id])
    && s.shares <= t.shares
  }

  /** Every registry entry records the key it is stored under. */
  predicate EntriesKeyed(s: Store) {
    forall id :: id in s.custodians ==> s.custodians[id].id == id
  }

  /** Every stored submission names a registered custodian and carries the digest of its data. */
  predicate LedgerSound(sha256Hex: Digest, s: Store) {
    forall i :: 0 <= i < |s.shares| ==>
      && s.shares[i].custodianId in s.custodians
      && s.shares[i].shareHash == sha256Hex(s.shares[i].shareData)
  }

  /** register_custodian: one-time registration of an `{id, password}` entry. */
  function Register(s: Store, custodianId: string, password: string): (r: (Outcome, Store))
    ensures r.0 == Fail(AlreadyRegistered) <==> custodianId in s.custodians
    ensures r.0 == Pass <==> custodianId !in s.custodians
    ensures r.0.Fail? ==> r.1 == s
    ensures r.1.custodians.Keys == s.custodians.Keys + {custodianId}
    ensures r.0 == Pass ==> r.1.custodians[custodianId] == CustodianEntry(custodianId, password)
    ensures Extends(s, r.1) && r.1.shares == s.shares
    ensures EntriesKeyed(s) ==> EntriesKeyed(r.1)
  {
    if custodianId in s.custodians then (Fail(AlreadyRegistered), s)
    else (Pass, s.(custodians := s.custodians[custodianId := CustodianEntry(custodianId, password)]))
  }

  /** submit_share: existence, then the client's hash against the server's digest, then
      the submission is appended; the reply is the ledger's new length. */
  function Submit(sha256Hex: Digest, s: Store, input: ShareInput): (r: (Result<nat>, Store))
    ensures input.custodianId !in s.custodians ==> r.0 == Err(NotFound)
    ensures input.custodianId in s.custodians && sha256Hex(input.shareData) != input.shareHash ==>
              r.0 == Err(HashMismatch)
    ensures r.0.Ok? <==> input.custodianId in s.custodians && sha256Hex(input.shareData) == input.shareHash
    ensures r.0.Err? ==> r.1 == s
    ensures r.0.Ok? ==>
              && r.1.custodians == s.custodians
              && r.1.shares == s.shares + [input]
              && r.0.value == |r.1.shares| == |s.shares| + 1
  {
    if input.custodianId !in s.custodians then (Err(NotFound), s)
    else if sha256Hex(input.shareData) != input.shareHash then (Err(HashMismatch), s)
    else
      var shares := s.shares + [input];
      (Ok(|shares|), s.(shares := shares))
  }

  /** The outcome of a submission depends on which ids are registered, never on their
      passwords. */
  lemma SubmitIgnoresPasswords(sha256Hex: Digest, s: Store, t: Store, input: ShareInput)
    requires s.custodians.Keys == t.custodians.Keys && s.shares == t.shares
    ensures Submit(sha256Hex, s, input).0 == Submit(sha256Hex, t, input).0
    ensures Submit(sha256Hex, s, input).1.shares == Submit(sha256Hex, t, input).1.shares
  {
  }

  /** One request to the router. */
  datatype Call =
    | RegisterCall(custodianId: string, password: string)
    | SubmitCall(input: ShareInput)

  datatype Reply =
    | Registration(outcome: Outcome)
    | Submission(result: Result<nat>)

  /** The submission a call added to the ledger, judged from the call and its reply. */
  function Admitted(c: Call, reply: Reply): seq<ShareInput> {
    if c.SubmitCall? && reply.Submission? && reply.result.Ok? then [c.input] else []
  }

  /** Dispatch of one request to its handler. */
  function Step(sha256Hex: Digest, s: Store, c: Call): (r: (Reply, Store))
    ensures Extends(s, r.1)
    ensures r.1.shares == s.shares + Admitted(c, r.0)
    ensures EntriesKeyed(s) ==> EntriesKeyed(r.1)
    ensures LedgerSound(sha256Hex, s) ==> LedgerSound(sha256Hex, r.1)
  {
    match c
    case RegisterCall(id, password) =>
      var (outcome, t) := Register(s, id, password);
      (Registration(outcome), t)
    case SubmitCall(input) =>
      var (result, t) := Submit(sha256Hex, s, input);
      (Submission(result), t)
  }

  function Handler(sha256Hex: Digest): (Store, Call) -> (Reply, Store) {
    (s, c) => Step(sha256Hex, s, c)
  }

  /** The replies to a sequence of requests handled one after another, and the state
      they leave behind. */
  function Serve(sha256Hex: Digest, s: Store, calls: seq<Call>): (seq<Reply>, Store) {
    Trace.Run(Handler(sha256Hex), s, calls)
  }

  /** The submissions a sequence of calls added, in the order the calls were handled. */
  function AllAdmitted(calls: seq<Call>, replies: seq<Reply>): seq<ShareInput>
    requires |calls| == |replies|
  {
    if calls == [] then []
    else
      var n := |calls| - 1;
      AllAdmitted(calls[..n], replies[..n]) + Admitted(calls[n], replies[n])
  }

  /** No sequence of requests removes an id, replaces an entry or alters a stored submission. */
  lemma {:induction false} ServeExtends(sha256Hex: Digest, s: Store, calls: seq<Call>)
    ensures Extends(s, Serve(sha256Hex, s, calls).1)
  {
    if calls != [] {
      ServeExtends(sha256Hex, s, calls[..|calls| - 1]);
    }
  }

  /** The ledger after a sequence of requests is the old ledger followed by exactly the
      accepted submissions, in submission order. */
  lemma {:induction false} ServeLedger(sha256Hex: Digest, s: Store, calls: seq<Call>)
    ensures Serve(sha256Hex, s, calls).1.shares
            == s.shares + AllAdmitted(calls, Serve(sha256Hex, s, calls).0)
  {
    if calls != [] {
      var n := |calls| - 1;
      var before := Serve(sha256Hex, s, calls[..n]);
      var last := Step(sha256Hex, before.1, calls[n]);
      assert Serve(sha256Hex, s, calls) == (before.0 + [last.0], last.1);
      ServeLedger(sha256Hex, s, calls[..n]);
      assert (before.0 + [last.0])[..n] == before.0;
      assert AllAdmitted(calls, before.0 + [last.0])
             == AllAdmitted(calls[..n], before.0) + Admitted(calls[n], last.0);
    }
  }

  /** The running total a successful submission returns counts the ledger before the run
      plus every submission accepted so far, this one included. */
  lemma {:induction false} ServeTotals(sha256Hex: Digest, s: Store, calls: seq<Call>, j: nat)
    requires j < |calls|
    requires Serve(sha256Hex, s, calls).0[j].Submission?
    requires Serve(sha256Hex, s, calls).0[j].result.Ok?
    ensures Serve(sha256Hex, s, calls).0[j].result.value
            == |s.shares| + |AllAdmitted(calls[..j + 1], Serve(sha256Hex, s, calls[..j + 1]).0)|
  {
    Trace.RunAt(Handler(sha256Hex), s, calls, j);
    ServeLedger(sha256Hex, s, calls[..j + 1]);
  }

  /** Starting from a well-formed registry and a sound ledger, every state reached keeps both. */
  lemma {:induction false} ServeKeepsInvariants(sha256Hex: Digest, s: Store, calls: seq<Call>)
    requires EntriesKeyed(s) && LedgerSound(sha256Hex, s)
    ensures EntriesKeyed(Serve(sha256Hex, s, calls).1)
    ensures LedgerSound(sha256Hex, Serve(sha256Hex, s, calls).1)
  {
    if calls != [] {
      ServeKeepsInvariants(sha256Hex, s, calls[..|calls| - 1]);
    }
  }

  /** An id that is already registered cannot be registered again at any later point. */
  lemma {:induction false} RegisteredIdRefused(sha256Hex: Digest, s: Store, calls: seq<Call>, j: nat)
    requires j < |calls|
    requires calls[j].RegisterCall? && calls[j].custodianId in s.custodians
    ensures Serve(sha256Hex, s, calls).0[j] == Registration(Fail(AlreadyRegistered))
  {
    Trace.RunAt(Handler(sha256Hex), s, calls, j);
    ServeExtends(sha256Hex, s, calls[..j]);
  }

  /** Once a registration request for an id has been handled, whatever its outcome,
      the id is registered. */
  lemma {:induction false} RegisteredAfter(sha256Hex: Digest, s: Store, calls: seq<Call>, i: nat)
    requires i < |calls| && calls[i].RegisterCall?
    ensures calls[i].custodianId in Serve(sha256Hex, s, calls[..i + 1]).1.custodians
  {
    Trace.RunAt(Handler(sha256Hex), s, calls, i);
  }

  /** After any registration request for an id, whatever its outcome, every later
      registration request for that id is refused. */
  lemma {:induction false} RegistrationIsOneTime(sha256Hex: Digest, s: Store, calls: seq<Call>, i: nat, j: nat)
    requires i < j < |calls|
    requires calls[i].RegisterCall? && calls[j].RegisterCall?
    requires calls[i].custodianId == calls[j].custodianId
    ensures Serve(sha256Hex, s, calls).0[j] == Registration(Fail(AlreadyRegistered))
  {
    RegisteredAfter(sha256Hex, s, calls, i);
    var afterI := Serve(sha256Hex, s, calls[..i + 1]).1;
    Trace.RunFrom(Handler(sha256Hex), s, calls, i + 1, j);
    RegisteredIdRefused(sha256Hex, afterI, calls[i + 1..], j - i - 1);
  }

  /** At most one registration of a given id ever succeeds. */
  lemma {:induction false} AtMostOneRegistration(sha256Hex: Digest, s: Store, calls: seq<Call>, i: nat, j: nat)
    requires i < |calls| && j < |calls|
    requires calls[i].RegisterCall? && calls[j].RegisterCall?
    requires calls[i].custodianId == calls[j].custodianId
    requires Serve(sha256Hex, s, calls).0[i] == Registration(Pass)
    requires Serve(sha256Hex, s, calls).0[j] == Registration(Pass)
    ensures i == j
  {
    if i < j {
      RegistrationIsOneTime(sha256Hex, s, calls, i, j);
      assert false;
    } else if j < i {
      RegistrationIsOneTime(sha256Hex, s, calls, j, i);
      assert false;
    }
  }

  /** The router as app/routes.py runs it: the registry and ledger are updated in place. */
  class Router {
    const sha256Hex: Digest
    var custodians: map<string, CustodianEntry>
    var shares: seq<ShareInput>

    function State(): Store
      reads this
    {
      Store(custodians, shares)
    }

    predicate Valid()
      reads this
    {
      EntriesKeyed(State()) && LedgerSound(sha256Hex, State())
    }

    constructor (sha256Hex: Digest)
      ensures this.sha256Hex == sha256Hex
      ensures State() == Store(map[], [])
      ensures Valid()
    {
      this.sha256Hex := sha256Hex;
      custodians := map[];
      shares := [];
    }

    method RegisterCustodian(custodianId: string, password: string) returns (outcome: Outcome)
      requires Valid()
      modifies this
      ensures Valid()
      ensures (outcome, State()) == Register(old(State()), custodianId, password)
    {
      if custodianId in custodians {
        return Fail(AlreadyRegistered);
      }
      custodians := custodians[custodianId := CustodianEntry(custodianId, password)];
      outcome := Pass;
    }

    method SubmitShare(input: ShareInput) returns (result: Result<nat>)
      requires Valid()
      modifies this
      ensures Valid()
      ensures (result, State()) == Submit(sha256Hex, old(State()), input)
    {
      if input.custodianId !in custodians {
        return Err(NotFound);
      }
      var computedHash := sha256Hex(input.shareData);
      if computedHash != input.shareHash {
        return Err(HashMismatch);
      }
      shares := shares + [input];
      var total := |shares|;
      result := Ok(total);
    }
  }
}
