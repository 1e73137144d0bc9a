/** The three ant kinds and their display table (TipoHormiga.java). */
module TiposHormiga {

  datatype TipoHormiga = Obrera | Guerrera | Reina
  {
    /** `getSimbolo`: the one-character glyph that draws this kind on the map. */
    function GetSimbolo(): (s: string)
      ensures |s| == 1
    {
      match this
      case Obrera => "O"
      case Guerrera => "G"
      case Reina => "R"
    }

    /** `getNombre`: the human-readable name of this kind, as the table spells it
        (the warrior's name is "Guerra"). */
    function GetNombre(): (n: string)
      ensures |n| >= 1
    {
      match this
      case Obrera => "Obrera"
      case Guerrera => "Guerra"
      case Reina => "Reina"
    }
  }

  /** The enum table as declared: each kind's symbol and name. */
  lemma TablaDeTipos()
    ensures Obrera.GetSimbolo() == "O" && Obrera.GetNombre() == "Obrera"
    ensures Guerrera.GetSimbolo() == "G" && Guerrera.GetNombre() == "Guerra"
    ensures Reina.GetSimbolo() == "R" && Reina.GetNombre() == "Reina"
  {
  }

  /** Symbols are pairwise distinct: the glyph identifies the kind. */
  lemma SimboloIdentificaTipo(a: TipoHormiga, b: TipoHormiga)
    ensures a.GetSimbolo() == b.GetSimbolo() <==> a == b
  {
  }

  /** Names are pairwise distinct as well. */
  lemma NombreIdentificaTipo(a: TipoHormiga, b: TipoHormiga)
    ensures a.GetNombre() == b.GetNombre() <==> a == b
  {
  }

  /** Each symbol is the first letter of the kind's name. */
  lemma SimboloEsInicial(t: TipoHormiga)
    ensures t.GetSimbolo() == t.GetNombre()[..1]
  {
  }
}
