/**
 * `HelloContract` as the host runs it: storage that each entry point updates
 * in place, key by key, in the order the source writes. Every method is
 * proved to leave exactly the state, return exactly the outcome and make
 * exactly the `extend_ttl` calls of the matching transition in `HelloSpec`.
 */
module Contract {
  import opened Host
  import opened HelloSpec

  class HelloContract {
    var admin: Option<Address>              // instance: Admin
    var counter: Option<u32>                // instance: ContadorSaludos
    var limit: Option<u32>                  // instance: LimiteCaracteres
    var perUser: map<Address, u32>          // instance: ContadorPorUsuario(_)
    var last: map<Address, seq<byte>>       // persistent: UltimoSaludo(_)

    /** Every `extend_ttl` call made so far, oldest first. */
    ghost var ttlLog: seq<TtlEvent>

    /** The storage as a value. */
    function View(): State
      reads this
    {
      State(admin, counter, limit, perUser, last)
    }

    /** A freshly deployed contract: nothing is stored yet. */
    constructor ()
      ensures View() == EMPTY && ttlLog == []
    {
      admin, counter, limit := None, None, None;
      perUser, last := map[], map[];
      ttlLog := [];
    }

    method Initialize(newAdmin: Address) returns (r: Outcome<()>)
      modifies this
      ensures var t := HelloSpec.Initialize(old(View()), newAdmin);
              r == t.out && View() == t.next && ttlLog == old(ttlLog) + t.ttl
    {
      if admin.Some? {
        return Err(NoInicializado);
      }
      admin := Some(newAdmin);
      counter := Some(0);
      ttlLog := ttlLog + [INSTANCE_EXTENSION];
      return Ok(());
    }

    method SetLimite(caller: Address, limite: u32) returns (r: Outcome<()>)
      modifies this
      ensures var t := HelloSpec.SetLimite(old(View()), caller, limite);
              r == t.out && View() == t.next && ttlLog == old(ttlLog) + t.ttl
    {
      // The source checks `has(Admin)` and then reads it with a fallback to the
      // same error; once `has` holds the read cannot fail, so one check suffices.
      if admin.None? {
        return Err(NoInicializado);
      }
      if caller != admin.value {
        return Err(NoAutorizado);
      }
      limit := Some(limite);
      ttlLog := ttlLog + [INSTANCE_EXTENSION];
      return Ok(());
    }

    method Hello(usuario: Address, nombre: seq<byte>) returns (r: Outcome<Symbol>)
      modifies this
      ensures var t := HelloSpec.Hello(old(View()), usuario, nombre);
              r == t.out && View() == t.next && ttlLog == old(ttlLog) + t.ttl
    {
      if |nombre| == 0 {
        return Err(NombreVacio);
      }
      var limite := limit.UnwrapOr(DEFAULT_LIMIT);
      if |nombre| > limite as int {
        return Err(NombreMuyLargo);
      }

      // Every write below is undone if a later `+ 1` panics: the host discards
      // the writes of an aborted invocation.
      var savedCounter, savedLast := counter, last;
      ghost var savedLog := ttlLog;

      var contador := counter.UnwrapOr(0);
      if contador == U32_MAX {
        return Panic;
      }
      counter := Some(contador + 1);

      last := last[usuario := nombre];
      ttlLog := ttlLog + [ExtendPersistent(UltimoSaludo(usuario), TTL_THRESHOLD, TTL_EXTEND_TO)];

      ttlLog := ttlLog + [INSTANCE_EXTENSION];

      var contadorUsuario := if usuario in perUser then perUser[usuario] else 0;
      if contadorUsuario == U32_MAX {
        counter, last := savedCounter, savedLast;
        ttlLog := savedLog;
        return Panic;
      }
      perUser := perUser[usuario := contadorUsuario + 1];
      return Ok(HOLA);
    }

    method ResetContador(caller: Address) returns (r: Outcome<()>)
      modifies this
      ensures var t := HelloSpec.ResetContador(old(View()), caller);
              r == t.out && View() == t.next && ttlLog == old(ttlLog) + t.ttl
    {
      if admin.None? {
        return Err(NoInicializado);
      }
      if caller != admin.value {
        return Err(NoAutorizado);
      }
      counter := Some(0);
      ttlLog := ttlLog + [INSTANCE_EXTENSION];
      return Ok(());
    }

    method TransferAdmin(caller: Address, nuevoAdmin: Address) returns (r: Outcome<()>)
      modifies this
      ensures var t := HelloSpec.TransferAdmin(old(View()), caller, nuevoAdmin);
              r == t.out && View() == t.next && ttlLog == old(ttlLog) + t.ttl
    {
      if admin.None? {
        return Err(NoInicializado);
      }
      if caller != admin.value {
        return Err(NoAutorizado);
      }
      admin := Some(nuevoAdmin);
      return Ok(());
    }
  }
}
