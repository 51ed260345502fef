/**
 * The state of `HelloContract` as a value, the way its storage reads through
 * `DataKey`, its read-or-default getters, and each public entry point as a
 * pure transition from one state to the next. The class in `Contract` is
 * proved to perform exactly these transitions.
 */
module HelloSpec {
  import opened Host

  /** The contract's errors, with the discriminants the host reports as `Error(Contract, #n)`. */
  datatype Error = NombreVacio | NombreMuyLargo | NoAutorizado | NoInicializado {

    function Code(): (c: u32)
      ensures 1 <= c <= 4
    {
      match this
      case NombreVacio => 1
      case NombreMuyLargo => 2
      case NoAutorizado => 3
      case NoInicializado => 4
    }
  }

  /** No two errors share a code, so a code identifies the error. */
  lemma ErrorCodesDistinct(e1: Error, e2: Error)
    ensures e1.Code() == e2.Code() <==> e1 == e2
  {
  }

  /** The storage keys. */
  datatype DataKey =
    | Admin
    | ContadorSaludos
    | UltimoSaludo(usuario: Address)
    | ContadorPorUsuario(usuario: Address)
    | LimiteCaracteres

  /** The two storage tiers: `instance()` and `persistent()`. */
  datatype Tier = InstanceTier | PersistentTier

  /** The tier the contract keeps each key in: only the last greetings are persistent. */
  function TierOf(key: DataKey): Tier {
    if key.UltimoSaludo? then PersistentTier else InstanceTier
  }

  /** A stored value: an address, a `u32`, or the bytes of a `String`. */
  datatype Value = AddressValue(address: Address) | U32Value(n: u32) | StringValue(bytes: seq<byte>)

  /** The arguments of every `extend_ttl` call the contract makes. */
  const TTL_THRESHOLD: nat := 17280
  const TTL_EXTEND_TO: nat := 17280

  /** An `extend_ttl` call, of the whole instance tier or of one persistent key. */
  datatype TtlEvent =
    | ExtendInstance(threshold: nat, extendTo: nat)
    | ExtendPersistent(key: DataKey, threshold: nat, extendTo: nat)

  const INSTANCE_EXTENSION := ExtendInstance(TTL_THRESHOLD, TTL_EXTEND_TO)

  /** The limit `hello` applies while no `LimiteCaracteres` is stored. */
  const DEFAULT_LIMIT: u32 := 32

  /** The symbol a successful `hello` returns. */
  const HOLA := Symbol("Hola")

  /**
   * How an invocation ends: it returns a value, returns one of the contract's
   * errors, or panics (the host then aborts it and discards its writes).
   */
  datatype Outcome<T> = Ok(value: T) | Err(error: Error) | Panic

  /** What one invocation returns, the state it leaves, and the TTL extensions it makes, in order. */
  datatype Transition<T> = Transition(out: Outcome<T>, next: State, ttl: seq<TtlEvent>)

  /**
   * The contract's storage. Each field holds the records of one shape of key;
   * `None` and a missing map entry mean the key is absent, which is kept
   * apart from a stored 0.
   */
  datatype State = State(
    admin: Option<Address>,              // Admin
    counter: Option<u32>,                // ContadorSaludos
    limit: Option<u32>,                  // LimiteCaracteres
    perUser: map<Address, u32>,          // ContadorPorUsuario(_)
    last: map<Address, seq<byte>>)       // UltimoSaludo(_), persistent tier
  {

    /** `storage().<tier>().get(&key)`: what is stored under `key` in `tier`. */
    function Lookup(tier: Tier, key: DataKey): (v: Option<Value>)
      ensures v.Some? ==> tier == TierOf(key)
    {
      if tier != TierOf(key) then None
      else match key
        case Admin => if admin.Some? then Some(AddressValue(admin.value)) else None
        case ContadorSaludos => if counter.Some? then Some(U32Value(counter.value)) else None
        case LimiteCaracteres => if limit.Some? then Some(U32Value(limit.value)) else None
        case ContadorPorUsuario(u) => if u in perUser then Some(U32Value(perUser[u])) else None
        case UltimoSaludo(u) => if u in last then Some(StringValue(last[u])) else None
    }

    /** `storage().<tier>().has(&key)`. */
    predicate Has(tier: Tier, key: DataKey) {
      Lookup(tier, key).Some?
    }

    /** An admin is stored: `initialize` has succeeded. */
    predicate IsInitialized() {
      Has(InstanceTier, Admin)
    }

    /** The limit `hello` applies: the stored `LimiteCaracteres`, else 32. */
    function EffectiveLimit(): (r: u32)
      ensures Lookup(InstanceTier, LimiteCaracteres) == None ==> r == DEFAULT_LIMIT
      ensures Lookup(InstanceTier, LimiteCaracteres) != None ==> Lookup(InstanceTier, LimiteCaracteres) == Some(U32Value(r))
    {
      limit.UnwrapOr(DEFAULT_LIMIT)
    }

    /** `get_contador`: the stored global counter, else 0. */
    function GetContador(): (r: u32)
      ensures Lookup(InstanceTier, ContadorSaludos) == None ==> r == 0
      ensures Lookup(InstanceTier, ContadorSaludos) != None ==> Lookup(InstanceTier, ContadorSaludos) == Some(U32Value(r))
    {
      counter.UnwrapOr(0)
    }

    /** `get_contador_usuario`: the stored counter of `usuario`, else 0. */
    function GetContadorUsuario(usuario: Address): (r: u32)
      ensures Lookup(InstanceTier, ContadorPorUsuario(usuario)) == None ==> r == 0
      ensures Lookup(InstanceTier, ContadorPorUsuario(usuario)) != None ==>
                Lookup(InstanceTier, ContadorPorUsuario(usuario)) == Some(U32Value(r))
    {
      if usuario in perUser then perUser[usuario] else 0
    }

    /** `get_ultimo_saludo`: the last greeting of `usuario` from the persistent tier, if any. */
    function GetUltimoSaludo(usuario: Address): (r: Option<seq<byte>>)
      ensures r.None? <==> !Has(PersistentTier, UltimoSaludo(usuario))
      ensures r.Some? ==> Lookup(PersistentTier, UltimoSaludo(usuario)) == Some(StringValue(r.value))
    {
      if usuario in last then Some(last[usuario]) else None
    }

    /** `get_admin`; the source panics when no admin is stored, so callers must not do that. */
    function GetAdmin(): (r: Address)
      requires IsInitialized()
      ensures Lookup(InstanceTier, Admin) == Some(AddressValue(r))
    {
      admin.value
    }
  }

  /** The storage of a freshly deployed contract: every key absent. */
  const EMPTY := State(None, None, None, map[], map[])

  /** Every key outside `keys` reads the same, in both tiers, in `s` and in `s'`. */
  ghost predicate UnchangedExcept(s: State, s': State, keys: set<DataKey>) {
    forall tier, key :: key !in keys ==> s'.Lookup(tier, key) == s.Lookup(tier, key)
  }

  /**
   * `initialize(admin)`. A second call fails with `NoInicializado` (code 4),
   * the same error the admin-gated entry points use for a missing admin.
   */
  function Initialize(s: State, admin: Address): (t: Transition<()>)
    ensures t.out == Err(NoInicializado) <==> s.IsInitialized()
    ensures t.out == Ok(()) <==> !s.IsInitialized()
    ensures s.IsInitialized() ==> t.next == s && t.ttl == []
    ensures !s.IsInitialized() ==>
              && t.next.IsInitialized() && t.next.GetAdmin() == admin
              && t.next.Lookup(InstanceTier, ContadorSaludos) == Some(U32Value(0))
              && t.next.GetContador() == 0
              && UnchangedExcept(s, t.next, {Admin, ContadorSaludos})
              && t.ttl == [INSTANCE_EXTENSION]
  {
    if s.Has(InstanceTier, Admin) then Transition(Err(NoInicializado), s, [])
    else Transition(Ok(()), s.(admin := Some(admin), counter := Some(0)), [INSTANCE_EXTENSION])
  }

  /** `set_limite(caller, limite)`: only the admin may store a new limit. */
  function SetLimite(s: State, caller: Address, limite: u32): (t: Transition<()>)
    ensures t.out == Err(NoInicializado) <==> !s.IsInitialized()
    ensures t.out == Err(NoAutorizado) <==> s.IsInitialized() && s.GetAdmin() != caller
    ensures t.out == Ok(()) <==> s.IsInitialized() && s.GetAdmin() == caller
    ensures !t.out.Ok? ==> t.next == s && t.ttl == []
    ensures t.out.Ok? ==>
              && t.next.Lookup(InstanceTier, LimiteCaracteres) == Some(U32Value(limite))
              && t.next.EffectiveLimit() == limite
              && UnchangedExcept(s, t.next, {LimiteCaracteres})
              && t.ttl == [INSTANCE_EXTENSION]
  {
    if !s.Has(InstanceTier, Admin) then Transition(Err(NoInicializado), s, [])
    else if caller != s.admin.value then Transition(Err(NoAutorizado), s, [])
    else Transition(Ok(()), s.(limit := Some(limite)), [INSTANCE_EXTENSION])
  }

  /**
   * `hello(usuario, nombre)`. The name must be non-empty and at most the
   * effective limit long; a length equal to the limit is accepted. The two
   * `+ 1`s panic on a counter already at `U32_MAX`. No admin is needed.
   */
  function Hello(s: State, usuario: Address, nombre: seq<byte>): (t: Transition<Symbol>)
    ensures t.out == Ok(HOLA) <==>
              && 0 < |nombre| <= s.EffectiveLimit() as int
              && s.GetContador() < U32_MAX && s.GetContadorUsuario(usuario) < U32_MAX
    ensures t.out == Err(NombreVacio) <==> |nombre| == 0
    ensures t.out == Err(NombreMuyLargo) <==> 0 < |nombre| && |nombre| > s.EffectiveLimit() as int
    ensures t.out.Panic? <==>
              && 0 < |nombre| <= s.EffectiveLimit() as int
              && (s.GetContador() == U32_MAX || s.GetContadorUsuario(usuario) == U32_MAX)
    ensures !t.out.Ok? ==> t.next == s && t.ttl == []
    ensures t.out.Ok? ==>
              && t.out.value == HOLA
              && t.next.GetContador() as int == s.GetContador() as int + 1
              && t.next.GetContadorUsuario(usuario) as int == s.GetContadorUsuario(usuario) as int + 1
              && t.next.GetUltimoSaludo(usuario) == Some(nombre)
              && UnchangedExcept(s, t.next, {ContadorSaludos, UltimoSaludo(usuario), ContadorPorUsuario(usuario)})
              && t.ttl == [ExtendPersistent(UltimoSaludo(usuario), TTL_THRESHOLD, TTL_EXTEND_TO), INSTANCE_EXTENSION]
  {
    if |nombre| == 0 then Transition(Err(NombreVacio), s, [])
    else if |nombre| > s.EffectiveLimit() as int then Transition(Err(NombreMuyLargo), s, [])
    else
      var contador := s.GetContador();
      var contadorUsuario := s.GetContadorUsuario(usuario);
      if contador == U32_MAX || contadorUsuario == U32_MAX then Transition(Panic, s, [])
      else
        var next := s.(counter := Some(contador + 1),
                       last := s.last[usuario := nombre],
                       perUser := s.perUser[usuario := contadorUsuario + 1]);
        Transition(Ok(HOLA), next,
                   [ExtendPersistent(UltimoSaludo(usuario), TTL_THRESHOLD, TTL_EXTEND_TO), INSTANCE_EXTENSION])
  }

  /** `reset_contador(caller)`: only the admin may zero the global counter. */
  function ResetContador(s: State, caller: Address): (t: Transition<()>)
    ensures t.out == Err(NoInicializado) <==> !s.IsInitialized()
    ensures t.out == Err(NoAutorizado) <==> s.IsInitialized() && s.GetAdmin() != caller
    ensures t.out == Ok(()) <==> s.IsInitialized() && s.GetAdmin() == caller
    ensures !t.out.Ok? ==> t.next == s && t.ttl == []
    ensures t.out.Ok? ==>
              && t.next.Lookup(InstanceTier, ContadorSaludos) == Some(U32Value(0))
              && t.next.GetContador() == 0
              && UnchangedExcept(s, t.next, {ContadorSaludos})
              && t.ttl == [INSTANCE_EXTENSION]
  {
    if s.admin.None? then Transition(Err(NoInicializado), s, [])
    else if caller != s.admin.value then Transition(Err(NoAutorizado), s, [])
    else Transition(Ok(()), s.(counter := Some(0)), [INSTANCE_EXTENSION])
  }

  /** `transfer_admin(caller, nuevo_admin)`: the admin hands the role over; no TTL is extended. */
  function TransferAdmin(s: State, caller: Address, nuevoAdmin: Address): (t: Transition<()>)
    ensures t.out == Err(NoInicializado) <==> !s.IsInitialized()
    ensures t.out == Err(NoAutorizado) <==> s.IsInitialized() && s.GetAdmin() != caller
    ensures t.out == Ok(()) <==> s.IsInitialized() && s.GetAdmin() == caller
    ensures !t.out.Ok? ==> t.next == s && t.ttl == []
    ensures t.out.Ok? ==>
              && t.next.IsInitialized() && t.next.GetAdmin() == nuevoAdmin
              && UnchangedExcept(s, t.next, {Admin})
              && t.ttl == []
  {
    if s.admin.None? then Transition(Err(NoInicializado), s, [])
    else if caller != s.admin.value then Transition(Err(NoAutorizado), s, [])
    else Transition(Ok(()), s.(admin := Some(nuevoAdmin)), [])
  }
}
