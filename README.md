# HelloContract, modelled in Dafny

A model of `HelloContract`, a Soroban smart contract from the hello-tiburona
repository (`contracts/hello-world/src/lib.rs`). The contract is a small
state machine gated by an admin. It keeps an admin address, a global greeting
counter (`ContadorSaludos`) and an optional name-length limit
(`LimiteCaracteres`) in the instance storage tier. It also keeps a greeting
counter per user (`ContadorPorUsuario(addr)`), in the instance tier, and each
user's last greeting (`UltimoSaludo(addr)`), in the persistent tier.

- `host.dfy` (module `Host`): the host's types. `u32` is a newtype; a name is
  a `seq<byte>`; `Address` is an opaque handle with equality; `Symbol` is a
  constant.
- `hello_spec.dfy` (module `HelloSpec`): the state of the storage as a value.
  `State.Lookup(tier, key)` reads it through the contract's `DataKey`. It also
  holds the read-or-default getters and, for each entry point, a pure
  transition. A transition returns the outcome (`Ok`, a contract `Error`, or
  `Panic`), the next state, and the `extend_ttl` calls made.
- `contract.dfy` (module `Contract`): the class `HelloContract`. Its fields
  are updated in place, in the order the source writes them. Each method is
  proved to perform exactly the matching `HelloSpec` transition, including
  its log of TTL extensions.
- `hello_runs.dfy` (module `HelloRuns`): sequences of calls. Lemmas prove
  that the admin is never lost and that each counter counts the accepted
  greetings. They also prove that the last greeting is the most recent
  accepted name and that only the admin passes the gated entry points. The
  scenarios of the contract's test module are restated as lemmas.

Modelling choices:

- A name is modelled as bytes. Soroban's `String::len` counts bytes, so
  "Tiburón" has length 8.
- Absent keys and stored zeros stay distinct. The defaults (0 for counters,
  32 for the limit) are applied only when a value is read.
- The `contador + 1` and `contador_usuario + 1` at lib.rs:90 and lib.rs:110
  are `u32` additions. The model assumes the build checks for overflow, so an
  overflow panics (the build profile is not part of this model). The host
  then aborts the invocation and drops its writes. The model therefore gives
  the `Panic` outcome and leaves the state unchanged. The class method writes
  the global counter and the greeting first, as the source does, and
  restores them when the per-user counter overflows.
- `get_admin` panics through `expect` when no admin is stored. That call is
  modelled as a precondition (`IsInitialized()`).
- `initialize` on a contract that already has an admin returns
  `NoInicializado` (code 4), not a separate "already initialized" error. The
  test at lib.rs:207-219 expects `#4`, and the model keeps that code.
- `hello` needs no admin: it also works before `initialize`, and then the
  counter starts from 0. A first `initialize` then stores a 0 counter
  without reading the old one. The greetings made before it drop out of the
  global counter but stay in the per-user counters and last greetings. After
  that, the global counter no longer equals the sum of the per-user
  counters. The counter-counting lemmas therefore start from an initialized
  contract, and `FirstInitializeZeroesEarlierGreetings` states this case.
- `transfer_admin` makes no `extend_ttl` call, and the model keeps that.

## Model

| member | source | states |
|---|---|---|
| HelloSpec.Error.Code | contracts/hello-world/src/lib.rs:11-16 | every error code is between 1 and 4 |
| HelloSpec.ErrorCodesDistinct | contracts/hello-world/src/lib.rs:11-16 | two errors have equal codes exactly when they are the same error |
| HelloSpec.State.Lookup | contracts/hello-world/src/lib.rs:20-26 | a key reads as present only in its own tier: `UltimoSaludo` in persistent, every other key in instance |
| HelloSpec.State.EffectiveLimit | contracts/hello-world/src/lib.rs:79-83 | the limit is the `u32` stored under `LimiteCaracteres`, or exactly 32 when that key is absent |
| HelloSpec.State.GetContador | contracts/hello-world/src/lib.rs:118-123 | returns the `u32` stored under `ContadorSaludos`, or 0 when the key is absent |
| HelloSpec.State.GetUltimoSaludo | contracts/hello-world/src/lib.rs:125-129 | returns `None` exactly when `UltimoSaludo(u)` is absent from persistent storage, otherwise the stored bytes |
| HelloSpec.State.GetContadorUsuario | contracts/hello-world/src/lib.rs:148-151 | returns the `u32` stored under `ContadorPorUsuario(u)`, or 0 when the key is absent |
| HelloSpec.State.GetAdmin | contracts/hello-world/src/lib.rs:152-157 | on an initialized contract, returns the address stored under `Admin` |
| HelloSpec.Initialize | contracts/hello-world/src/lib.rs:33-48 | fails with `NoInicializado` iff an admin is stored, and then changes nothing; otherwise stores the admin and a counter of 0, touches no other key and extends the instance TTL once |
| HelloSpec.SetLimite | contracts/hello-world/src/lib.rs:49-73 | `NoInicializado` iff no admin; `NoAutorizado` iff the caller is not the admin; a failure changes nothing; success stores the limit, which then becomes the effective limit, changes no other key and extends the instance TTL |
| HelloSpec.Hello | contracts/hello-world/src/lib.rs:75-116 | returns `Ok("Hola")` iff the name is non-empty, at most the effective limit long (equal is accepted) and both counters are below `u32::MAX`; `NombreVacio` iff the name is empty; `NombreMuyLargo` iff it is longer than the effective limit (equal is accepted); panics iff a counter is already at `u32::MAX`; a failure changes nothing; success returns "Hola" and adds exactly 1 to the global and per-user counters; it sets the last greeting to the name and changes no other key; it extends `UltimoSaludo(u)` and then the instance TTL |
| HelloSpec.ResetContador | contracts/hello-world/src/lib.rs:131-146 | `NoInicializado` iff no admin; `NoAutorizado` iff the caller is not the admin; a failure changes nothing; success stores 0 in the global counter, changes no other key and extends the instance TTL |
| HelloSpec.TransferAdmin | contracts/hello-world/src/lib.rs:159-172 | `NoInicializado` iff no admin; `NoAutorizado` iff the caller is not the admin; a failure changes nothing; success makes the new address the admin, changes no other key and extends no TTL |
| Contract.HelloContract.constructor | contracts/hello-world/src/lib.rs:28-29 | a newly deployed contract stores nothing and has made no TTL extension |
| Contract.HelloContract.Initialize | contracts/hello-world/src/lib.rs:33-48 | the in-place update returns the outcome, leaves the storage and appends the TTL events of `HelloSpec.Initialize` |
| Contract.HelloContract.SetLimite | contracts/hello-world/src/lib.rs:49-73 | the in-place update performs exactly `HelloSpec.SetLimite` |
| Contract.HelloContract.Hello | contracts/hello-world/src/lib.rs:75-116 | the step-by-step read-modify-write, with rollback on overflow, performs exactly `HelloSpec.Hello` |
| Contract.HelloContract.ResetContador | contracts/hello-world/src/lib.rs:131-146 | the in-place update performs exactly `HelloSpec.ResetContador` |
| Contract.HelloContract.TransferAdmin | contracts/hello-world/src/lib.rs:159-172 | the in-place update performs exactly `HelloSpec.TransferAdmin` and logs no TTL event |
| HelloRuns.AdminChangesOnlyByInitializeOrTransfer | contracts/hello-world/src/lib.rs:159-169 | the stored admin changes only through a first `initialize` or a `transfer_admin` called by the current admin |
| HelloRuns.AdminNeverLost | contracts/hello-world/src/lib.rs:32-173 | once an admin is stored, every sequence of calls leaves one stored |
| HelloRuns.SecondInitializeFails | contracts/hello-world/src/lib.rs:35-37 | after initialization, `initialize` fails with code 4 and changes nothing, whatever calls came in between |
| HelloRuns.GlobalCounterCountsHellos | contracts/hello-world/src/lib.rs:88-90 | on an initialized contract with no reset, the global counter grows by exactly the number of accepted greetings |
| HelloRuns.UserCounterCountsHellos | contracts/hello-world/src/lib.rs:103-113 | a user's counter grows by exactly the number of that user's accepted greetings |
| HelloRuns.LastGreetingIsLatest | contracts/hello-world/src/lib.rs:93-94 | `get_ultimo_saludo(u)` returns the name of `u`'s most recent accepted greeting, or the earlier record if there was none |
| HelloRuns.OnlyAdminSucceeds | contracts/hello-world/src/lib.rs:49-64 | a gated call succeeds iff its caller is the stored admin; a refused call changes nothing |
| HelloRuns.TransferMovesAuthority | contracts/hello-world/src/lib.rs:159-169 | after a transfer from `a` to `b`, every gated call by `a` is refused and changes nothing, and every gated call by `b` succeeds |
| HelloRuns.CounterDropsOnlyOnReset | contracts/hello-world/src/lib.rs:140-142 | on an initialized contract, the global counter goes down only through a successful `reset_contador` by the admin |
| HelloRuns.FirstInitializeZeroesEarlierGreetings | contracts/hello-world/src/lib.rs:41-43 | on a contract with no admin, `initialize` sets the global counter to 0 and keeps every per-user counter and last greeting |
| HelloRuns.GreetingBeforeInitializeIsUncounted | contracts/hello-world/src/lib.rs:75-90 | one accepted greeting before `initialize` raises the global counter to 1; after `initialize` the counter is back at 0 while the user's counter stays 1 |
| HelloRuns.TiburonScenario | contracts/hello-world/src/lib.rs:221-260 | after initialize, two greetings and a reset, the global counter reads 0, 1, 2, 0 and the user's counter reads 0, 1, 2, 2 |
| HelloRuns.DefaultLimitIs32 | contracts/hello-world/src/lib.rs:79-86 | with no limit stored, a 32-byte name is accepted and a 33-byte name is refused with `NombreMuyLargo` (code 2) |
| HelloRuns.EmptyNameScenario | contracts/hello-world/src/lib.rs:193-205 | an empty name is refused with code 1 and the state stays as it was |
| HelloRuns.UnauthorizedResetScenario | contracts/hello-world/src/lib.rs:262-275 | a reset by a non-admin is refused with code 3 and the state stays as it was |
| HelloRuns.TransferScenario | contracts/hello-world/src/lib.rs:300-322 | the admin role passes from the first admin to a second and then to a third |

## Left out

- The Soroban host environment is not modelled: `Env`, the internals of `Address`, how a `Symbol` is built, and compilation to wasm. An address is an opaque value with equality, and "Hola" is a constant symbol.
- TTL and ledger expiry are not modelled. Each `extend_ttl` call is recorded as an event with its two arguments (17280, 17280), and nothing ever expires.
- No caller is authenticated. The source calls no `require_auth` and only compares `caller != admin`, so the model does the same.
- Host atomicity is modelled only as far as the contract relies on it. Every error path returns before any write. A panic leaves the state as it was before the call.
- HelloSpec.State.GetAdmin: the panic before initialization is a precondition, not an outcome.
- HelloSpec.Hello: the overflow outcome assumes Soroban's usual overflow-checked build. A build without overflow checks would wrap the counter to 0, and the model does not cover that.
- Byte strings are not checked to be valid UTF-8. Only their length matters to the contract.
- The test module (lib.rs:175-323) is not modelled as code. Its assertions are restated as the scenario lemmas.
