/** An ant (Hormiga.java) and the worker ant's construction
    (HormigaObrera.java). The identifier and kind are fixed at construction;
    the position and the active flag are updated in place. */
module Hormigas {
  import opened Posiciones
  import opened TiposHormiga

  /** The four unit steps an ant may take, in the table's order. The Java
      array is mutable but no code writes to it, so it is an immutable
      sequence here. The source
      labels them right, down, up, left, which reads each pair as
      (row delta, column delta); `mover` takes the column delta first. No
      code uses the table yet, and the lemmas below read each pair as
      (deltaX, deltaY): the table holds the swap of each of its entries
      (DireccionesSimetricas), so nothing proved here depends on the order. */
  const DIRECCIONES: seq<(int32, int32)> := [(0, 1), (1, 0), (-1, 0), (0, -1)]

  function Abs(v: int): nat {
    if v < 0 then -v else v
  }

  /** The direction table holds four distinct unit steps. */
  lemma DireccionesUnitarias()
    ensures |DIRECCIONES| == 4
    ensures forall i, j :: 0 <= i < j < |DIRECCIONES| ==> DIRECCIONES[i] != DIRECCIONES[j]
    ensures forall i :: 0 <= i < |DIRECCIONES| ==>
              Abs(DIRECCIONES[i].0 as int) + Abs(DIRECCIONES[i].1 as int) == 1
  {
  }

  /** Swapping the two components of a table entry gives a table entry, so
      the row/column reading of the pairs does not change the set of steps. */
  lemma DireccionesSimetricas(i: nat)
    requires i < |DIRECCIONES|
    ensures (DIRECCIONES[i].1, DIRECCIONES[i].0) in DIRECCIONES
  {
    if i == 0 {
      assert DIRECCIONES[1] == (DIRECCIONES[0].1, DIRECCIONES[0].0);
    } else if i == 1 {
      assert DIRECCIONES[0] == (DIRECCIONES[1].1, DIRECCIONES[1].0);
    } else if i == 2 {
      assert DIRECCIONES[3] == (DIRECCIONES[2].1, DIRECCIONES[2].0);
    } else {
      assert DIRECCIONES[2] == (DIRECCIONES[3].1, DIRECCIONES[3].0);
    }
  }

  /** Derived from DIRECCIONES, `mover` and `dentroLimites` together (no method
      of the simulator performs this step yet): from a cell inside the map, a
      step along any table direction never overflows, lands on an adjacent
      cell, and leaves the map only when it crosses the edge it stands on. */
  lemma PasoDesdeDentro(p: Posicion, i: nat, maxX: int32, maxY: int32)
    requires p.DentroLimites(maxX, maxY)
    requires i < |DIRECCIONES|
    ensures var (dx, dy) := DIRECCIONES[i];
            var q := p.Mover(dx, dy);
            && q.x as int == p.x as int + dx as int
            && q.y as int == p.y as int + dy as int
            && Abs(q.x as int - p.x as int) + Abs(q.y as int - p.y as int) == 1
            && (!q.DentroLimites(maxX, maxY) <==>
                  (p.x == 0 && dx == -1) || (p.x as int == maxX as int - 1 && dx == 1) ||
                  (p.y == 0 && dy == -1) || (p.y as int == maxY as int - 1 && dy == 1))
  {
  }

  class Hormiga {
    /** Unique identifier; a `const`, so no method can reassign it. */
    const id: string
    /** Kind of ant; a `const`, so no method can reassign it. */
    const tipo: TipoHormiga
    /** Current cell on the map. */
    var posicion: Posicion
    /** Whether the ant is still running. Only the constructors set it to
        true: SetPosicion keeps it and Detener clears it, so once false it
        stays false. */
    var activa: bool

    /** `Hormiga(id, tipo, posicionInicial)`: a new ant starts active. The
        Java class is abstract and its only subclass builds workers, so the
        Java code creates OBRERA ants only; this constructor also accepts the
        other two kinds. */
    constructor (id: string, tipo: TipoHormiga, posicionInicial: Posicion)
      ensures GetIdHormiga() == id && GetTipo() == tipo
      ensures GetPosicion() == posicionInicial && IsActiva()
    {
      this.id := id;
      this.tipo := tipo;
      this.posicion := posicionInicial;
      this.activa := true;
    }

    /** `HormigaObrera(id, posicionInicial)`: an ant of kind worker. */
    constructor Obrera(id: string, posicionInicial: Posicion)
      ensures GetIdHormiga() == id && GetTipo() == TipoHormiga.Obrera
      ensures GetPosicion() == posicionInicial && IsActiva()
      ensures GetTipo().GetSimbolo() == "O"
    {
      this.id := id;
      this.tipo := TipoHormiga.Obrera;
      this.posicion := posicionInicial;
      this.activa := true;
    }

    /** `getIdHormiga`. */
    function GetIdHormiga(): string {
      id
    }

    /** `getTipo`. */
    function GetTipo(): TipoHormiga {
      tipo
    }

    /** `getPosicion`. */
    function GetPosicion(): Posicion
      reads this
    {
      posicion
    }

    /** `isActiva`. */
    function IsActiva(): bool
      reads this
    {
      activa
    }

    /** `setPosicion`: replaces the position; the active flag is kept. */
    method SetPosicion(nuevaPosicion: Posicion)
      modifies this
      ensures GetPosicion() == nuevaPosicion
      ensures IsActiva() == old(IsActiva())
    {
      posicion := nuevaPosicion;
    }

    /** `detener`: the ant becomes inactive; its position is kept. The new
        state does not depend on the old flag, so stopping twice is the same
        as stopping once. */
    method Detener()
      modifies this
      ensures !IsActiva()
      ensures GetPosicion() == old(GetPosicion())
    {
      activa := false;
    }
  }
}
