/** The map's fixed dimensions (Mapa.java). The nest cell and the character
    grid are declared there without being initialised, so only the two size
    constants are modelled. */
module Mapa {
  import opened Posiciones

  /** Width of the map: valid columns are 0 .. ANCHO - 1. */
  const ANCHO: int32 := 10
  /** Height of the map: valid rows are 0 .. ALTO - 1. */
  const ALTO: int32 := 10
}
