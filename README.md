# HSM master-key simulator: custodian registry and share ledger

This project models the request-handling core of the HSM Master Key Simulator, a
demonstration service in which custodians register with a password and submit
fragments ("shares") of a master key. The service keeps two pieces of
process-wide state: a custodian registry (id to credential) and an append-only
share ledger. The repository ships two near-duplicate handler sets with
different trust models, and both are modelled, side by side:

- `MainApi` (`app/main.py`, variant A). Registration stores `id -> password`.
  A submission is refused with `NotFound` when the id is unknown and with
  `InvalidCredential` when the password differs from the stored one. Otherwise
  the server computes the SHA-256 hex digest of the share, appends a record
  holding the id, the data, that digest and a UTC timestamp, and returns the
  digest. `get_shares` returns the ledger.
- `RoutesApi` (`app/routes.py`, variant B). Registration stores an
  `{id, password}` entry. A submission carries the client's own digest. It is
  refused with `NotFound` when the id is unknown and with `HashMismatch` when
  the client's digest differs from the server's. The password is never
  consulted. Otherwise the submission is appended exactly as sent (no
  timestamp) and the reply is the ledger's new length.

Each variant has the same shape:

- a `Store` datatype holding the registry (`map`) and the ledger (`seq`);
- pure functions `Register` and `Submit` whose contracts state the fail-fast
  order of the checks, the error for each failed check, and the exact effect on
  the state;
- a class (`Service`, `Router`) with the two collections as fields, updated in
  place by methods tied to those functions;
- `Step` and `Serve` (built on `Trace.Run`), which apply any sequence of
  requests one after another, with lemmas over whole runs: one-time
  registration, no credential ever overwritten, the ledger is append-only and
  grows by exactly the accepted submissions in order, and the ledger invariant
  is kept.

The SHA-256 digest is a parameter of type `string -> string` and is not
computed. In the classes it is a constant field fixed at construction. So the
model states which digest lands in which record, and that the digest is
deterministic, without implementing FIPS 180-4. The clock reading of a
variant-A submission is a parameter of the call.

Facts about the source that the model keeps:

- Both handler sets answer a repeated registration with status 400
  (app/main.py:154, app/routes.py:26).
- Variant B's ledger records carry no timestamp: the submission is stored as
  sent (app/routes.py:45).
- Nothing constrains the digest to 64 lower-case hex characters, because the
  digest is not computed.

## Model

| member | source | states |
|---|---|---|
| `Outcomes.StatusCode` | app/main.py:153-164 | every refusal is a 4xx client error; 404 exactly for an unknown custodian, 401 exactly for a wrong password, 400 exactly for a repeated registration or a hash mismatch |
| `MainApi.Register` | app/main.py:152-156 | refused with AlreadyRegistered iff the id is present, and then nothing changes; otherwise the registry gains exactly that key with the given password, no existing credential is replaced, and the ledger is untouched |
| `MainApi.Submit` | app/main.py:160-178 | NotFound for an unknown id (checked first); InvalidCredential for a registered id with a different password; success iff both checks pass. A refusal changes nothing. A success leaves the registry as it is and appends exactly one record: the id, the data, the digest of the data and the supplied timestamp. The returned hash equals the stored one |
| `MainApi.Step` | app/main.py:151-183 | no request removes an id, replaces a credential or alters an earlier record; the ledger grows by at most the one admitted record; ledger soundness is kept; get_shares returns the ledger and changes nothing |
| `MainApi.ServeExtends` | app/main.py:153-173 | over any sequence of requests, registered ids stay registered with their first credential, and the old ledger stays a prefix |
| `MainApi.ServeLedger` | app/main.py:168-173 | after any sequence of requests, the ledger is the old ledger followed by exactly the records of the accepted submissions, in submission order |
| `MainApi.ServeKeepsLedgerSound` | app/main.py:161-173 | from a sound ledger, every reachable ledger holds only records whose custodian is registered and whose hash is the digest of their data |
| `MainApi.RegisteredIdRefused` | app/main.py:153-154 | a registration request for an id already registered is refused with AlreadyRegistered, however many requests came between |
| `MainApi.RegisteredAfter` | app/main.py:153-155 | once a registration request has been handled, successful or not, its id is in the registry |
| `MainApi.RegistrationIsOneTime` | app/main.py:153-155 | after any registration request for an id, every later one for the same id is refused |
| `MainApi.AtMostOneRegistration` | app/main.py:153-155 | in any run, two successful registrations of the same id are the same request |
| `MainApi.AliceScenario` | app/main.py:151-183 | register alice, re-register her (refused), submit "secret1" with her password (hash returned), list: one matching record |
| `MainApi.Service.constructor` | app/main.py:41-42 | the service starts with an empty registry and an empty ledger |
| `MainApi.Service.RegisterCustodian` | app/main.py:152-156 | updates the registry in place exactly as `Register` prescribes, and keeps the ledger sound |
| `MainApi.Service.SubmitShare` | app/main.py:160-178 | appends in place exactly as `Submit` prescribes, using the service's digest, and keeps the ledger sound |
| `MainApi.Service.GetShares` | app/main.py:182-183 | returns the ledger in insertion order; it modifies nothing, and it agrees with the list request of `Step` |
| `RoutesApi.Register` | app/routes.py:23-32 | refused with AlreadyRegistered iff the id is present, and then nothing changes; otherwise exactly that key is added with an entry whose id equals the key and whose password is the input; other entries and the ledger are untouched |
| `RoutesApi.Submit` | app/routes.py:35-50 | NotFound for an unknown id (checked first); HashMismatch for a registered id whose client hash differs from the digest; success iff the id is registered and the hashes agree, with no password involved. A refusal changes nothing. A success appends the submission as sent and returns the new ledger length, the old length plus one |
| `RoutesApi.SubmitIgnoresPasswords` | app/routes.py:35-46 | two registries with the same ids give the same submission outcome and ledger, whatever the passwords |
| `RoutesApi.Step` | app/routes.py:22-50 | no request removes an id, replaces an entry or alters an earlier submission; the ledger grows by at most the one admitted submission; both invariants are kept |
| `RoutesApi.ServeExtends` | app/routes.py:25-45 | over any sequence of requests, registered ids keep their first entry, and the old ledger stays a prefix |
| `RoutesApi.ServeLedger` | app/routes.py:45-46 | after any sequence of requests, the ledger is the old ledger followed by exactly the accepted submissions, in submission order |
| `RoutesApi.ServeTotals` | app/routes.py:45-49 | the total returned by the j-th request, when it is an accepted submission, equals the old ledger length plus the number of submissions accepted up to and including it |
| `RoutesApi.ServeKeepsInvariants` | app/routes.py:28-45 | every entry records its own key, and every stored submission names a registered custodian and carries the digest of its data; both hold in every reachable state |
| `RoutesApi.RegisteredIdRefused` | app/routes.py:25-26 | a registration request for an id already registered is refused with AlreadyRegistered |
| `RoutesApi.RegisteredAfter` | app/routes.py:25-31 | once a registration request has been handled, successful or not, its id is in the registry |
| `RoutesApi.RegistrationIsOneTime` | app/routes.py:25-31 | after any registration request for an id, every later one for the same id is refused |
| `RoutesApi.AtMostOneRegistration` | app/routes.py:25-31 | in any run, two successful registrations of the same id are the same request |
| `RoutesApi.Router.constructor` | app/routes.py:9-10 | the router starts with an empty registry and an empty ledger |
| `RoutesApi.Router.RegisterCustodian` | app/routes.py:23-32 | updates the registry in place exactly as `Register` prescribes, and keeps both invariants |
| `RoutesApi.Router.SubmitShare` | app/routes.py:35-50 | appends in place exactly as `Submit` prescribes, using the router's digest, and returns the new length; it keeps both invariants |

## Left out

- The HTML landing page `root()` (app/main.py:47-145) is presentation.
- FastAPI and pydantic wiring (the app object, route decorators, `APIRouter`, request-body parsing) is framework glue. Inputs are plain strings.
- SHA-256 and the UTF-8 encoding of the share are a library call. The digest is an uninterpreted function parameter, so known digest values (such as the digest of the empty string) and the 64-character hex format are not stated.
- The clock read `datetime.utcnow().isoformat() + "Z"` is replaced by a timestamp parameter. Its ISO-8601 format is not modelled.
- Response messages are left out, and so are HTTP status codes except the mapping in `Outcomes.StatusCode`. A handler returns only a result tag and its value (the digest, or the running total).
- Concurrent handler execution is not modelled. FastAPI runs these plain `def` handlers on a worker thread pool. So in the source the check-then-insert of registration (app/main.py:153-155, app/routes.py:25-28) is not atomic, and neither is the append followed by `len` (app/routes.py:45-46). Here each method call or `Step` is one whole handler run, as if every handler were atomic.
- AtMostOneRegistration, RegistrationIsOneTime and ServeTotals (in both `MainApi` and `RoutesApi` where present) hold only for this sequential model. With concurrent requests, two registrations of one id can both succeed, and a returned total can count submissions appended by other requests after this one.
