/** The colony registry (SimuladorColoniasHormigas.java): the map from ant
    identifier to ant, the simulation-active flag, and the loop that spawns
    the worker ants. */
module Simulador {
  import opened Posiciones
  import opened TiposHormiga
  import opened Decimal
  import opened Hormigas
  import Mapa

  /** Number of worker ants `generarHormigaObrera` creates. */
  const NUMERO_HORMIGUERO: nat := 5

  /** The identifier `"OBRERA_" + n` given to the n-th worker. */
  function IdObrera(n: nat): (id: string)
    ensures |id| > 7 && id[..7] == "OBRERA_"
  {
    "OBRERA_" + DecimalString(n)
  }

  /** The sequence number can be read back from the identifier: the part
      after the prefix is the decimal numeral of n. */
  lemma IdObreraDecodifica(n: nat)
    ensures IsDigits(IdObrera(n)[7..]) && ParseDecimal(IdObrera(n)[7..]) == n
  {
    assert IdObrera(n)[7..] == DecimalString(n);
    ParseDecimalString(n);
  }

  /** The identifiers of the first n workers, OBRERA_1 .. OBRERA_n. */
  function IdsObreras(n: nat): set<string> {
    if n == 0 then {} else IdsObreras(n - 1) + {IdObrera(n)}
  }

  /** Distinct sequence numbers give distinct identifiers. */
  lemma IdObreraInyectiva(a: nat, b: nat)
    ensures IdObrera(a) == IdObrera(b) <==> a == b
  {
    if IdObrera(a) == IdObrera(b) {
      assert DecimalString(a) == IdObrera(a)[7..];
      assert DecimalString(b) == IdObrera(b)[7..];
      DecimalStringInjective(a, b);
    }
  }

  /** An identifier is among the first n exactly when it is OBRERA_i for some
      1 <= i <= n. */
  lemma {:induction false} IdsObrerasMiembro(n: nat, k: string)
    ensures k in IdsObreras(n) <==> exists i :: 1 <= i <= n && k == IdObrera(i)
  {
    if n > 0 {
      IdsObrerasMiembro(n - 1, k);
      if k == IdObrera(n) {
        assert 1 <= n <= n && k == IdObrera(n);
      }
    }
  }

  /** The first n identifiers are n distinct strings. */
  lemma {:induction false} IdsObrerasCard(n: nat)
    ensures |IdsObreras(n)| == n
  {
    if n > 0 {
      IdsObrerasCard(n - 1);
      if IdObrera(n) in IdsObreras(n - 1) {
        IdsObrerasMiembro(n - 1, IdObrera(n));
        var i :| 1 <= i <= n - 1 && IdObrera(n) == IdObrera(i);
        IdObreraInyectiva(n, i);
      }
    }
  }

  /** Updating the right operand of a map union updates the union: this is
      how repeated `put`s on top of an existing map compose. */
  lemma UnionActualizada<T>(base: map<string, T>, m: map<string, T>, k: string, v: T)
    ensures (base + m)[k := v] == base + m[k := v]
  {
  }

  /** Filing the first n workers (`creadas`) on top of a map `base`, as
      repeated `put`s do: the keys grow by exactly the workers' identifiers,
      each worker is found under its identifier, the other entries of `base`
      stay, and on top of an empty map, or of one holding only worker
      identifiers, exactly n entries remain. */
  lemma UnionConObreras<T>(base: map<string, T>, creadas: map<string, T>, n: nat)
    requires creadas.Keys == IdsObreras(n)
    ensures (base + creadas).Keys == base.Keys + IdsObreras(n)
    ensures forall i :: 1 <= i <= n ==>
              IdObrera(i) in creadas && (base + creadas)[IdObrera(i)] == creadas[IdObrera(i)]
    ensures forall k :: k in base && k !in IdsObreras(n) ==> (base + creadas)[k] == base[k]
    ensures base.Keys <= IdsObreras(n) ==> |base + creadas| == n
    ensures base == map[] ==> |base + creadas| == n
  {
    forall i | 1 <= i <= n ensures IdObrera(i) in creadas {
      IdsObrerasMiembro(n, IdObrera(i));
    }
    IdsObrerasCard(n);
    if base.Keys <= IdsObreras(n) {
      assert (base + creadas).Keys == IdsObreras(n);
      assert |base + creadas| == |(base + creadas).Keys|;
    }
  }

  /** What every ant spawned by `generarHormigaObrera` looks like. */
  ghost predicate ObreraRecienNacida(h: Hormiga, id: string)
    reads h
  {
    && h.id == id
    && h.tipo == TipoHormiga.Obrera
    && h.activa
    && h.posicion.DentroLimites(Mapa.ANCHO, Mapa.ALTO)
  }

  class SimuladorColoniasHormigas {
    /** The ants by identifier (the source's `HashMap<String, Hormiga>`). */
    var hormigas: map<string, Hormiga>
    /** Whether the simulation is running. */
    var simulacionActiva: bool

    /** Every ant is filed under its own identifier, as `put(id, obrera)`
        does; an empty registry trivially is. */
    ghost predicate Valid()
      reads this
      ensures hormigas == map[] ==> Valid()
    {
      forall k :: k in hormigas ==> hormigas[k].id == k
    }

    /** A new simulator holds no ants and is not running. */
    constructor ()
      ensures Valid()
      ensures hormigas == map[] && !simulacionActiva
    {
      hormigas := map[];
      simulacionActiva := false;
    }

    /** The loop of `generarHormigaObrera`, for `numeroHormiga` workers
        OBRERA_1 .. OBRERA_numeroHormiga: each gets a position drawn inside
        the map and is filed under its identifier with `put`, replacing any
        ant already there. The ghost result `creadas` names the ants it
        created, by identifier. */
    method CrearObreras(numeroHormiga: nat) returns (ghost creadas: map<string, Hormiga>)
      modifies this
      ensures simulacionActiva == old(simulacionActiva)
      ensures creadas.Keys == IdsObreras(numeroHormiga)
      ensures hormigas == old(hormigas) + creadas
      ensures forall k :: k in creadas ==> fresh(creadas[k])
      ensures forall k :: k in creadas ==> ObreraRecienNacida(creadas[k], k)
    {
      var i := 0;
      creadas := map[];
      while i < numeroHormiga
        invariant 0 <= i <= numeroHormiga
        invariant simulacionActiva == old(simulacionActiva)
        invariant creadas.Keys == IdsObreras(i)
        invariant hormigas == old(hormigas) + creadas
        invariant forall k :: k in creadas ==> fresh(creadas[k])
        invariant forall k :: k in creadas ==> ObreraRecienNacida(creadas[k], k)
      {
        // random.nextInt(bound): some value in [0, bound); the generator's
        // distribution is not modelled
        var x: int :| 0 <= x < Mapa.ANCHO as int;
        var y: int :| 0 <= y < Mapa.ALTO as int;
        var posicionInicial := Posicion(x as int32, y as int32);
        var id := IdObrera(i + 1);
        var obrera := new Hormiga.Obrera(id, posicionInicial);
        UnionActualizada(old(hormigas), creadas, id, obrera);
        assert creadas[id := obrera].Keys == IdsObreras(i + 1);
        hormigas := hormigas[id := obrera];
        creadas := creadas[id := obrera];
        i := i + 1;
      }
    }

    /** `generarHormigaObrera`: creates NUMERO_HORMIGUERO workers OBRERA_1 ..
        OBRERA_5 at random cells inside the map and files each under its
        identifier, replacing any ant already there. */
    method GenerarHormigaObrera()
      requires Valid()
      modifies this
      ensures Valid()
      ensures simulacionActiva == old(simulacionActiva)
      ensures hormigas.Keys == old(hormigas).Keys + IdsObreras(NUMERO_HORMIGUERO)
      ensures forall i :: 1 <= i <= NUMERO_HORMIGUERO ==>
                IdObrera(i) in hormigas && fresh(hormigas[IdObrera(i)])
                && ObreraRecienNacida(hormigas[IdObrera(i)], IdObrera(i))
      ensures forall k :: k in old(hormigas) && k !in IdsObreras(NUMERO_HORMIGUERO) ==>
                hormigas[k] == old(hormigas)[k]
      ensures old(hormigas) == map[] ==> |hormigas| == NUMERO_HORMIGUERO
      ensures old(hormigas).Keys <= IdsObreras(NUMERO_HORMIGUERO) ==> |hormigas| == NUMERO_HORMIGUERO
    {
      var numeroHormiga := NUMERO_HORMIGUERO;
      ghost var creadas := CrearObreras(numeroHormiga);
      UnionConObreras(old(hormigas), creadas, numeroHormiga);
    }

    /** `detenerSimulacion`: the simulation is marked stopped and the ants are
        left as they are; the new state does not depend on the old flag, so
        stopping twice is the same as stopping once. */
    method DetenerSimulacion()
      requires Valid()
      modifies this
      ensures Valid()
      ensures !simulacionActiva
      ensures hormigas == old(hormigas)
    {
      simulacionActiva := false;
    }
  }
}
