/**
 * Sequences of invocations of `HelloContract`, and what holds over them:
 * the admin is never lost once set, the counters count successful greetings,
 * the last greeting is the most recent accepted name, and only the current
 * admin can act on the privileged entry points. The scenarios of the
 * contract's own test module are restated at the end.
 */
module HelloRuns {
  import opened Host
  import S = HelloSpec

  /** One invocation of a state-changing entry point. */
  datatype Call =
    | Initialize(admin: Address)
    | SetLimite(caller: Address, limite: u32)
    | Hello(usuario: Address, nombre: seq<byte>)
    | ResetContador(caller: Address)
    | TransferAdmin(caller: Address, nuevoAdmin: Address)

  /** The state after `c`. */
  function Next(s: S.State, c: Call): S.State {
    match c
    case Initialize(a) => S.Initialize(s, a).next
    case SetLimite(caller, l) => S.SetLimite(s, caller, l).next
    case Hello(u, n) => S.Hello(s, u, n).next
    case ResetContador(caller) => S.ResetContador(s, caller).next
    case TransferAdmin(caller, b) => S.TransferAdmin(s, caller, b).next
  }

  /** `c` returned `Ok`. */
  predicate Succeeded(s: S.State, c: Call) {
    match c
    case Initialize(a) => S.Initialize(s, a).out.Ok?
    case SetLimite(caller, l) => S.SetLimite(s, caller, l).out.Ok?
    case Hello(u, n) => S.Hello(s, u, n).out.Ok?
    case ResetContador(caller) => S.ResetContador(s, caller).out.Ok?
    case TransferAdmin(caller, b) => S.TransferAdmin(s, caller, b).out.Ok?
  }

  /** The state after running `calls` from `s`, one after the other. */
  function Run(s: S.State, calls: seq<Call>): S.State
    decreases |calls|
  {
    if calls == [] then s
    else Next(Run(s, calls[..|calls| - 1]), calls[|calls| - 1])
  }

  /** The number of calls in `calls` that were accepted greetings. */
  function SuccessfulHellos(s: S.State, calls: seq<Call>): nat
    decreases |calls|
  {
    if calls == [] then 0
    else
      var before, c := calls[..|calls| - 1], calls[|calls| - 1];
      SuccessfulHellos(s, before) + if c.Hello? && Succeeded(Run(s, before), c) then 1 else 0
  }

  /** The number of calls in `calls` that were accepted greetings of `u`. */
  function SuccessfulHellosBy(s: S.State, calls: seq<Call>, u: Address): nat
    decreases |calls|
  {
    if calls == [] then 0
    else
      var before, c := calls[..|calls| - 1], calls[|calls| - 1];
      SuccessfulHellosBy(s, before, u) + if c.Hello? && c.usuario == u && Succeeded(Run(s, before), c) then 1 else 0
  }

  /** The name of the most recent accepted greeting of `u` in `calls`, or what was stored before them. */
  function LatestGreeting(s: S.State, calls: seq<Call>, u: Address): Option<seq<byte>>
    decreases |calls|
  {
    if calls == [] then s.GetUltimoSaludo(u)
    else
      var before, c := calls[..|calls| - 1], calls[|calls| - 1];
      if c.Hello? && c.usuario == u && Succeeded(Run(s, before), c) then Some(c.nombre)
      else LatestGreeting(s, before, u)
  }

  /** The admin-gated entry points; each names its `caller`. */
  predicate IsPrivileged(c: Call) {
    c.SetLimite? || c.ResetContador? || c.TransferAdmin?
  }

  /** The admin record changes only by a first `initialize` or by a transfer the current admin makes. */
  lemma AdminChangesOnlyByInitializeOrTransfer(s: S.State, c: Call)
    ensures Next(s, c).admin != s.admin ==>
              || (c.Initialize? && !s.IsInitialized())
              || (c.TransferAdmin? && s.IsInitialized() && s.GetAdmin() == c.caller)
  {
  }

  /** Once an admin is stored, no sequence of calls removes it. */
  lemma {:induction false} AdminNeverLost(s: S.State, calls: seq<Call>)
    requires s.IsInitialized()
    ensures Run(s, calls).IsInitialized()
    decreases |calls|
  {
    if calls != [] {
      AdminNeverLost(s, calls[..|calls| - 1]);
    }
  }

  /** Initialization is exactly-once: after it, every further `initialize` fails with code 4 and changes nothing. */
  lemma SecondInitializeFails(s: S.State, calls: seq<Call>, a: Address)
    requires s.IsInitialized()
    ensures var t := S.Initialize(Run(s, calls), a);
            t.out == S.Err(S.NoInicializado) && t.out.error.Code() == 4 && t.next == Run(s, calls)
  {
    AdminNeverLost(s, calls);
  }

  /**
   * Without `reset_contador`, the global counter of an initialized contract
   * grows by exactly the number of accepted greetings.
   */
  lemma {:induction false} GlobalCounterCountsHellos(s: S.State, calls: seq<Call>)
    requires s.IsInitialized()
    requires forall i | 0 <= i < |calls| :: !calls[i].ResetContador?
    ensures Run(s, calls).GetContador() as int == s.GetContador() as int + SuccessfulHellos(s, calls)
    decreases |calls|
  {
    if calls != [] {
      var before := calls[..|calls| - 1];
      GlobalCounterCountsHellos(s, before);
      AdminNeverLost(s, before);
    }
  }

  /** The counter of `u` grows by exactly the number of accepted greetings of `u`; nothing resets it. */
  lemma {:induction false} UserCounterCountsHellos(s: S.State, calls: seq<Call>, u: Address)
    ensures Run(s, calls).GetContadorUsuario(u) as int == s.GetContadorUsuario(u) as int + SuccessfulHellosBy(s, calls, u)
    decreases |calls|
  {
    if calls != [] {
      UserCounterCountsHellos(s, calls[..|calls| - 1], u);
    }
  }

  /** `get_ultimo_saludo(u)` returns exactly the name of the most recent accepted greeting of `u`. */
  lemma {:induction false} LastGreetingIsLatest(s: S.State, calls: seq<Call>, u: Address)
    ensures Run(s, calls).GetUltimoSaludo(u) == LatestGreeting(s, calls, u)
    decreases |calls|
  {
    if calls != [] {
      LastGreetingIsLatest(s, calls[..|calls| - 1], u);
    }
  }

  /** Only the current admin gets `Ok` from `set_limite`, `reset_contador` or `transfer_admin`. */
  lemma OnlyAdminSucceeds(s: S.State, c: Call)
    requires IsPrivileged(c)
    ensures Succeeded(s, c) <==> s.IsInitialized() && s.GetAdmin() == c.caller
    ensures !Succeeded(s, c) ==> Next(s, c) == s
  {
  }

  /** A successful transfer moves the authority at once: the old admin is refused, the new one accepted. */
  lemma TransferMovesAuthority(s: S.State, a: Address, b: Address, c: Call)
    requires a != b
    requires S.TransferAdmin(s, a, b).out.Ok?
    requires IsPrivileged(c)
    ensures var s' := S.TransferAdmin(s, a, b).next;
            && s'.GetAdmin() == b
            && (c.caller == a ==> !Succeeded(s', c) && Next(s', c) == s')
            && (c.caller == b ==> Succeeded(s', c))
  {
  }

  /** On an initialized contract, apart from a successful reset by the admin, no call lowers the global counter. */
  lemma CounterDropsOnlyOnReset(s: S.State, c: Call)
    requires s.IsInitialized()
    ensures Next(s, c).GetContador() < s.GetContador() ==>
              c.ResetContador? && Succeeded(s, c) && s.GetAdmin() == c.caller
  {
  }

  /**
   * `hello` needs no admin, and a first `initialize` stores a 0 counter
   * whatever was counted before it: the greetings made before initialization
   * drop out of the global counter, while the per-user counters and the last
   * greetings keep them.
   */
  lemma FirstInitializeZeroesEarlierGreetings(s: S.State, a: Address, u: Address)
    requires !s.IsInitialized()
    ensures var s' := Next(s, Initialize(a));
            && s'.GetContador() == 0
            && s'.GetContadorUsuario(u) == s.GetContadorUsuario(u)
            && s'.GetUltimoSaludo(u) == s.GetUltimoSaludo(u)
  {
  }

  /** The smallest case: one greeting before `initialize` takes the global counter from 1 back to 0. */
  lemma GreetingBeforeInitializeIsUncounted(a: Address, u: Address)
    ensures var calls := [Hello(u, [0x41]), Initialize(a)];
            var s1 := Run(S.EMPTY, calls[..1]);
            var s2 := Run(S.EMPTY, calls);
            && s1.GetContador() == 1
            && s2.GetContador() == 0 && s2.GetContadorUsuario(u) == 1
            && SuccessfulHellos(S.EMPTY, calls) == 1
  {
    var calls := [Hello(u, [0x41]), Initialize(a)];
    var s1 := S.Hello(S.EMPTY, u, [0x41]).next;
    assert calls[..1] == [Hello(u, [0x41])] && calls[..1][..0] == [];
    assert Run(S.EMPTY, calls[..1]) == s1;
    assert calls[..|calls| - 1] == calls[..1];
    assert Succeeded(S.EMPTY, calls[0]);
    assert SuccessfulHellos(S.EMPTY, calls[..1]) == 1;
    FirstInitializeZeroesEarlierGreetings(s1, a, u);
  }

  /** "Tiburón" as the UTF-8 bytes a Soroban `String` holds: 8 bytes for 7 characters. */
  const TIBURON: seq<byte> := [0x54, 0x69, 0x62, 0x75, 0x72, 0xC3, 0xB3, 0x6E]

  /**
   * The test scenario: initialize, two greetings from `u`, a reset by the
   * admin. The global counter reads 1, 2, 0 while `u`'s counter reads 1, 2, 2.
   */
  lemma TiburonScenario(admin: Address, u: Address)
    ensures var s0 := S.Initialize(S.EMPTY, admin).next;
            var t1 := S.Hello(s0, u, TIBURON);
            var t2 := S.Hello(t1.next, u, TIBURON);
            var t3 := S.ResetContador(t2.next, admin);
            && s0.GetContador() == 0 && s0.GetContadorUsuario(u) == 0
            && t1.out == S.Ok(S.HOLA)
            && t1.next.GetContador() == 1 && t1.next.GetContadorUsuario(u) == 1
            && t1.next.GetUltimoSaludo(u) == Some(TIBURON)
            && t2.next.GetContador() == 2 && t2.next.GetContadorUsuario(u) == 2
            && t3.out == S.Ok(())
            && t3.next.GetContador() == 0 && t3.next.GetContadorUsuario(u) == 2
            && t3.next.GetUltimoSaludo(u) == Some(TIBURON)
  {
  }

  /** With no limit ever set, a 32-byte name is accepted and a 33-byte name is refused. */
  lemma DefaultLimitIs32(s: S.State, u: Address, n32: seq<byte>, n33: seq<byte>)
    requires s.limit.None?
    requires s.GetContador() < U32_MAX && s.GetContadorUsuario(u) < U32_MAX
    requires |n32| == 32 && |n33| == 33
    ensures S.Hello(s, u, n32).out == S.Ok(S.HOLA)
    ensures S.Hello(s, u, n33).out == S.Err(S.NombreMuyLargo) && S.Hello(s, u, n33).out.error.Code() == 2
  {
  }

  /** An empty name is refused with code 1 on a freshly initialized contract. */
  lemma EmptyNameScenario(admin: Address, u: Address)
    ensures var s0 := S.Initialize(S.EMPTY, admin).next;
            var t := S.Hello(s0, u, []);
            t.out == S.Err(S.NombreVacio) && t.out.error.Code() == 1 && t.next == s0
  {
  }

  /** A non-admin's reset is refused with code 3. */
  lemma UnauthorizedResetScenario(admin: Address, u: Address)
    requires u != admin
    ensures var s0 := S.Initialize(S.EMPTY, admin).next;
            var t := S.ResetContador(s0, u);
            t.out == S.Err(S.NoAutorizado) && t.out.error.Code() == 3 && t.next == s0
  {
  }

  /** The admin role passes from `admin` to `b` and on to `c`. */
  lemma TransferScenario(admin: Address, b: Address, c: Address)
    ensures var s0 := S.Initialize(S.EMPTY, admin).next;
            var t1 := S.TransferAdmin(s0, admin, b);
            var t2 := S.TransferAdmin(t1.next, b, c);
            && t1.out == S.Ok(()) && t1.next.GetAdmin() == b
            && t2.out == S.Ok(()) && t2.next.GetAdmin() == c
  {
  }
}
