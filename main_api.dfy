/**
 * The handler set of app/main.py ("variant A"): a custodian registry mapping each id to
 * its plaintext password, and a share ledger whose records carry a hash the server
 * computes and a timestamp the server supplies. Submission checks that the custodian
 * exists, then that the password matches, and only then appends.
 */
module MainApi {
  import opened Outcomes
  import Trace

  /** SHA-256 of the UTF-8 bytes of a string, rendered as hex. The digest algorithm is
      not modelled: every member takes the function as a parameter, so the model states
      which hash lands where without computing one. */
  type Digest = string -> string

  datatype ShareRecord = ShareRecord(custodianId: string, shareData: string, shareHash: string, timestamp: string)

  /** The module-level `custodians` dict and `shares` list. */
  datatype Store = Store(custodians: map<string, string>, shares: seq<ShareRecord>)

  /** t can follow s: no id has left the registry, no credential was replaced,
      and the ledger only grew at its end. */
  predicate Extends(s: Store, t: Store) {
    && s.custodians.Keys <= t.custodians.Keys
    && (forall id :: id in s.custodians ==> t.custodians[id] == s.custodians[id])
    && s.shares <= t.shares
  }

  /** Every stored record names a registered custodian and carries the digest of its data. */
  predicate LedgerSound(sha256Hex: Digest, s: Store) {
    forall i :: 0 <= i < |s.shares| ==>
      && s.shares[i].custodianId in s.custodians
      && s.shares[i].shareHash == sha256Hex(s.shares[i].shareData)
  }

  /** register_custodian: one-time registration; an id already present is refused. */
  function Register(s: Store, custodianId: string, password: string): (r: (Outcome, Store))
    ensures r.0 == Fail(AlreadyRegistered) <==> custodianId in s.custodians
    ensures r.0 == Pass <==> custodianId !in s.custodians
    ensures r.0.Fail? ==> r.1 == s
    ensures r.1.custodians.Keys == s.custodians.Keys + {custodianId}
    ensures r.0 == Pass ==> r.1.custodians[custodianId] == password
    ensures Extends(s, r.1) && r.1.shares == s.shares
  {
    if custodianId in s.custodians then (Fail(AlreadyRegistered), s)
    else (Pass, s.(custodians := s.custodians[custodianId := password]))
  }

  /** submit_share: existence, then password, then one record with the server's hash
      and timestamp; the reply carries the hash that was stored. */
  function Submit(sha256Hex: Digest, s: Store, custodianId: string, password: string,
                  shareData: string, timestamp: string): (r: (Result<string>, Store))
    ensures custodianId !in s.custodians ==> r.0 == Err(NotFound)
    ensures custodianId in s.custodians && s.custodians[custodianId] != password ==>
              r.0 == Err(InvalidCredential)
    ensures r.0.Ok? <==> custodianId in s.custodians && s.custodians[custodianId] == password
    ensures r.0.Err? ==> r.1 == s
    ensures r.0.Ok? ==>
              && r.1.custodians == s.custodians
              && r.1.shares == s.shares + [ShareRecord(custodianId, shareData, sha256Hex(shareData), timestamp)]
              && r.0.value == r.1.shares[|s.shares|].shareHash
  {
    if custodianId !in s.custodians then (Err(NotFound), s)
    else if s.custodians[custodianId] != password then (Err(InvalidCredential), s)
    else
      var shareHash := sha256Hex(shareData);
      (Ok(shareHash), s.(shares := s.shares + [ShareRecord(custodianId, shareData, shareHash, timestamp)]))
  }

  /** One request to the service; the submission carries the clock reading of its call. */
  datatype Call =
    | RegisterCall(custodianId: string, password: string)
    | SubmitCall(custodianId: string, password: string, shareData: string, timestamp: string)
    | ListCall

  datatype Reply =
    | Registration(outcome: Outcome)
    | Submission(result: Result<string>)
    | Listing(shares: seq<ShareRecord>)

  /** The record a call added to the ledger, judged from the call and its reply. */
  function Admitted(sha256Hex: Digest, c: Call, reply: Reply): seq<ShareRecord> {
    if c.SubmitCall? && reply.Submission? && reply.result.Ok?
    then [ShareRecord(c.custodianId, c.shareData, sha256Hex(c.shareData), c.timestamp)]
    else []
  }

  /** Dispatch of one request to its handler; get_shares reads and changes nothing. */
  function Step(sha256Hex: Digest, s: Store, c: Call): (r: (Reply, Store))
    ensures Extends(s, r.1)
    ensures r.1.shares == s.shares + Admitted(sha256Hex, c, r.0)
    ensures LedgerSound(sha256Hex, s) ==> LedgerSound(sha256Hex, r.1)
    ensures c.ListCall? ==> r == (Listing(s.shares), s)
  {
    match c
    case RegisterCall(id, password) =>
      var (outcome, t) := Register(s, id, password);
      (Registration(outcome), t)
    case SubmitCall(id, password, shareData, timestamp) =>
      var (result, t) := Submit(sha256Hex, s, id, password, shareData, timestamp);
      (Submission(result), t)
    case ListCall =>
      (Listing(s.shares), s)
  }

  function Handler(sha256Hex: Digest): (Store, Call) -> (Reply, Store) {
    (s, c) => Step(sha256Hex, s, c)
  }

  /** The replies to a sequence of requests handled one after another, and the state
      they leave behind. */
  function Serve(sha256Hex: Digest, s: Store, calls: seq<Call>): (seq<Reply>, Store) {
    Trace.Run(Handler(sha256Hex), s, calls)
  }

  /** The records a sequence of calls added, in the order the calls were handled. */
  function AllAdmitted(sha256Hex: Digest, calls: seq<Call>, replies: seq<Reply>): seq<ShareRecord>
    requires |calls| == |replies|
  {
    if calls == [] then []
    else
      var n := |calls| - 1;
      AllAdmitted(sha256Hex, calls[..n], replies[..n]) + Admitted(sha256Hex, calls[n], replies[n])
  }

  /** No sequence of requests removes an id, replaces a credential or alters a stored record. */
  lemma {:induction false} ServeExtends(sha256Hex: Digest, s: Store, calls: seq<Call>)
    ensures Extends(s, Serve(sha256Hex, s, calls).1)
  {
    if calls != [] {
      var n := |calls| - 1;
      ServeExtends(sha256Hex, s, calls[..n]);
    }
  }

  /** The ledger after a sequence of requests is the old ledger followed by exactly the
      records of the accepted submissions, in submission order. */
  lemma {:induction false} ServeLedger(sha256Hex: Digest, s: Store, calls: seq<Call>)
    ensures Serve(sha256Hex, s, calls).1.shares
            == s.shares + AllAdmitted(sha256Hex, calls, Serve(sha256Hex, s, calls).0)
  {
    if calls != [] {
      var n := |calls| - 1;
      var before := Serve(sha256Hex, s, calls[..n]);
      var last := Step(sha256Hex, before.1, calls[n]);
      assert Serve(sha256Hex, s, calls) == (before.0 + [last.0], last.1);
      ServeLedger(sha256Hex, s, calls[..n]);
      assert (before.0 + [last.0])[..n] == before.0;
      assert AllAdmitted(sha256Hex, calls, before.0 + [last.0])
             == AllAdmitted(sha256Hex, calls[..n], before.0) + Admitted(sha256Hex, calls[n], last.0);
    }
  }

  /** Starting from a sound ledger, every state reached is sound. */
  lemma {:induction false} ServeKeepsLedgerSound(sha256Hex: Digest, s: Store, calls: seq<Call>)
    requires LedgerSound(sha256Hex, s)
    ensures LedgerSound(sha256Hex, Serve(sha256Hex, s, calls).1)
  {
    if calls != [] {
      ServeKeepsLedgerSound(sha256Hex, s, calls[..|calls| - 1]);
    }
  }

  /** An id that is already registered cannot be registered again at any later point. */
  lemma {:induction false} RegisteredIdRefused(sha256Hex: Digest, s: Store, calls: seq<Call>, j: nat)
    requires j < |calls|
    requires calls[j].RegisterCall? && calls[j].custodianId in s.custodians
    ensures Serve(sha256Hex, s, calls).0[j] == Registration(Fail(AlreadyRegistered))
  {
    Trace.RunAt(Handler(sha256Hex), s, calls, j);
    ServeExtends(sha256Hex, s, calls[..j]);
  }

  /** Once a registration request for an id has been handled, whatever its outcome,
      the id is registered. */
  lemma {:induction false} RegisteredAfter(sha256Hex: Digest, s: Store, calls: seq<Call>, i: nat)
    requires i < |calls| && calls[i].RegisterCall?
    ensures calls[i].custodianId in Serve(sha256Hex, s, calls[..i + 1]).1.custodians
  {
    Trace.RunAt(Handler(sha256Hex), s, calls, i);
  }

  /** After any registration request for an id, whatever its outcome, every later
      registration request for that id is refused. */
  lemma {:induction false} RegistrationIsOneTime(sha256Hex: Digest, s: Store, calls: seq<Call>, i: nat, j: nat)
    requires i < j < |calls|
    requires calls[i].RegisterCall? && calls[j].RegisterCall?
    requires calls[i].custodianId == calls[j].custodianId
    ensures Serve(sha256Hex, s, calls).0[j] == Registration(Fail(AlreadyRegistered))
  {
    RegisteredAfter(sha256Hex, s, calls, i);
    var afterI := Serve(sha256Hex, s, calls[..i + 1]).1;
    Trace.RunFrom(Handler(sha256Hex), s, calls, i + 1, j);
    RegisteredIdRefused(sha256Hex, afterI, calls[i + 1..], j - i - 1);
  }

  /** At most one registration of a given id ever succeeds. */
  lemma {:induction false} AtMostOneRegistration(sha256Hex: Digest, s: Store, calls: seq<Call>, i: nat, j: nat)
    requires i < |calls| && j < |calls|
    requires calls[i].RegisterCall? && calls[j].RegisterCall?
    requires calls[i].custodianId == calls[j].custodianId
    requires Serve(sha256Hex, s, calls).0[i] == Registration(Pass)
    requires Serve(sha256Hex, s, calls).0[j] == Registration(Pass)
    ensures i == j
  {
    if i < j {
      RegistrationIsOneTime(sha256Hex, s, calls, i, j);
      assert false;
    } else if j < i {
      RegistrationIsOneTime(sha256Hex, s, calls, j, i);
      assert false;
    }
  }

  /** A fresh service: register alice, fail to register her again, submit one share with
      her password, list the ledger. */
  lemma {:induction false} AliceScenario(sha256Hex: Digest, now: string)
    ensures Serve(sha256Hex, Store(map[], []),
                  [RegisterCall("alice", "pw1"), RegisterCall("alice", "pw2"),
                   SubmitCall("alice", "pw1", "secret1", now), ListCall]).0
            == [Registration(Pass), Registration(Fail(AlreadyRegistered)),
                Submission(Ok(sha256Hex("secret1"))),
                Listing([ShareRecord("alice", "secret1", sha256Hex("secret1"), now)])]
  {
    var h := Handler(sha256Hex);
    var s0, s1 := Store(map[], []), Store(map["alice" := "pw1"], []);
    var s3 := s1.(shares := [ShareRecord("alice", "secret1", sha256Hex("secret1"), now)]);
    var c1 := [RegisterCall("alice", "pw1")];
    var c2 := c1 + [RegisterCall("alice", "pw2")];
    var c3 := c2 + [SubmitCall("alice", "pw1", "secret1", now)];
    var c4 := c3 + [ListCall];
    assert c1[..0] == [] && c2[..1] == c1 && c3[..2] == c2 && c4[..3] == c3;
    assert Trace.Run(h, s0, c1).1 == s1;
    assert Trace.Run(h, s0, c1).0 == [Registration(Pass)];
    assert Trace.Run(h, s0, c2).1 == s1;
    assert Trace.Run(h, s0, c3).1 == s3;
    assert c4 == [RegisterCall("alice", "pw1"), RegisterCall("alice", "pw2"),
                  SubmitCall("alice", "pw1", "secret1", now), ListCall];
  }

  /** The service as app/main.py runs it: the registry and ledger are updated in place. */
  class Service {
    const sha256Hex: Digest
    var custodians: map<string, string>
    var shares: seq<ShareRecord>

    function State(): Store
      reads this
    {
      Store(custodians, shares)
    }

    predicate Valid()
      reads this
    {
      LedgerSound(sha256Hex, State())
    }

    constructor (sha256Hex: Digest)
      ensures this.sha256Hex == sha256Hex
      ensures State() == Store(map[], [])
      ensures Valid()
    {
      this.sha256Hex := sha256Hex;
      custodians := map[];
      shares := [];
    }

    method RegisterCustodian(custodianId: string, password: string) returns (outcome: Outcome)
      requires Valid()
      modifies this
      ensures Valid()
      ensures (outcome, State()) == Register(old(State()), custodianId, password)
    {
      if custodianId in custodians {
        return Fail(AlreadyRegistered);
      }
      custodians := custodians[custodianId := password];
      outcome := Pass;
    }

    method SubmitShare(custodianId: string, password: string, shareData: string, timestamp: string)
      returns (result: Result<string>)
      requires Valid()
      modifies this
      ensures Valid()
      ensures (result, State()) == Submit(sha256Hex, old(State()), custodianId, password, shareData, timestamp)
    {
      if custodianId !in custodians {
        return Err(NotFound);
      }
      if custodians[custodianId] != password {
        return Err(InvalidCredential);
      }
      var shareHash := sha256Hex(shareData);
      shares := shares + [ShareRecord(custodianId, shareData, shareHash, timestamp)];
      result := Ok(shareHash);
    }

    method GetShares() returns (listed: seq<ShareRecord>)
      ensures listed == shares
      ensures Step(sha256Hex, State(), ListCall) == (Listing(listed), State())
    {
      listed := shares;
    }
  }
}
