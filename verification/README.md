# Ant colony simulator — verified model of the colony core

This project models the part of the ant-colony simulator that the Java code
actually implements:

- `Posicion`, an immutable `(x, y)` cell with a bounds check (`dentroLimites`)
  and a translation (`mover`) that builds a new position. Coordinates are Java
  `int`s, so the model uses a 32-bit `int32` newtype and `mover` wraps modulo
  2^32 as Java's `+` does (`Posiciones.Wrap`).
- `TipoHormiga`, the three ant kinds (worker `O`/"Obrera", warrior
  `G`/"Guerra", queen `R`/"Reina") with their symbol and name.
- `Hormiga`, an ant whose identifier and kind are fixed and whose position and
  active flag change in place, with `HormigaObrera` as the named constructor
  `Hormiga.Obrera`; the `DIRECCIONES` table of four unit steps.
- `SimuladorColoniasHormigas`, the registry: a map from identifier to ant,
  a simulation-active flag, the spawn loop `generarHormigaObrera` that files
  five workers `OBRERA_1` .. `OBRERA_5` at random cells of the 10 x 10 map,
  and `detenerSimulacion`.

Files: `posicion.dfy` (module `Posiciones`), `tipo_hormiga.dfy`
(`TiposHormiga`), `mapa.dfy` (`Mapa`, the `ANCHO`/`ALTO` constants),
`hormiga.dfy` (`Hormigas`), `decimal.dfy` (`Decimal`, the decimal numeral
Java's `"OBRERA_" + (i + 1)` produces), `simulador.dfy` (`Simulador`).

The random draws `random.nextInt(Mapa.ANCHO)` / `random.nextInt(Mapa.ALTO)`
are modelled as a nondeterministic choice of a value in `[0, 10)`, which is
what `nextInt` guarantees; the random generator itself is not modelled.

The code is an early skeleton, and the model follows what it does: the spawn
loop does not avoid the nest or cells already taken, the warrior's name is
"Guerra", ants never move (the move methods are empty), and `put` overwrites,
so a second spawn replaces the five workers instead of adding five more.

## Model

| member | source | states |
|---|---|---|
| Posiciones.Wrap | SimuladorHormigas/src/Posicion.java:91 | Java `int` addition: the result equals the mathematical sum when it fits in 32 bits and is always congruent to it modulo 2^32 |
| Posiciones.WrapCongruent | SimuladorHormigas/src/Posicion.java:91 | sums congruent modulo 2^32 give the same wrapped `int` |
| Posiciones.Posicion.DentroLimites | SimuladorHormigas/src/Posicion.java:70-76 | `dentroLimites(maxX, maxY)` holds only when both sides of the rectangle are positive (a cell inside means a non-empty map) |
| Posiciones.Posicion.Mover | SimuladorHormigas/src/Posicion.java:88-92 | `mover(dx, dy)` gives `(x+dx, y+dy)` exactly when no addition overflows, and in every case coordinates congruent to those sums modulo 2^32; the receiver is a value and is left as it was |
| Posiciones.DentroLimitesVacio | SimuladorHormigas/src/Posicion.java:70-76 | with `maxX <= 0` or `maxY <= 0` no position is inside the limits |
| Posiciones.DentroLimitesIff | SimuladorHormigas/src/Posicion.java:70-76 | `dentroLimites(maxX, maxY)` holds if and only if `0 <= x < maxX` and `0 <= y < maxY` |
| Posiciones.MoverCero | SimuladorHormigas/src/Posicion.java:90-92 | `mover(0, 0)` yields the same coordinates |
| Posiciones.MoverCompone | SimuladorHormigas/src/Posicion.java:90-92 | `p.mover(a, b).mover(c, d)` equals `p.mover(a+c, b+d)` with Java-wrapped sums, for all inputs including overflowing ones |
| TiposHormiga.TipoHormiga.GetSimbolo | SimuladorHormigas/src/TipoHormiga.java:44-46 | `getSimbolo` is total and returns a one-character string |
| TiposHormiga.TipoHormiga.GetNombre | SimuladorHormigas/src/TipoHormiga.java:55-57 | `getNombre` is total and returns a non-empty string |
| TiposHormiga.TablaDeTipos | SimuladorHormigas/src/TipoHormiga.java:10-12 | OBRERA is `"O"`/`"Obrera"`, GUERRERA is `"G"`/`"Guerra"`, REINA is `"R"`/`"Reina"` |
| TiposHormiga.SimboloIdentificaTipo | SimuladorHormigas/src/TipoHormiga.java:10-12 | two kinds have the same symbol if and only if they are the same kind |
| TiposHormiga.NombreIdentificaTipo | SimuladorHormigas/src/TipoHormiga.java:10-12 | two kinds have the same name if and only if they are the same kind |
| TiposHormiga.SimboloEsInicial | SimuladorHormigas/src/TipoHormiga.java:10-12 | each kind's symbol is the first letter of its name |
| Hormigas.DireccionesSimetricas | SimuladorHormigas/src/Hormiga.java:36-44 | the swap of every `DIRECCIONES` entry is again an entry, so reading the pairs as (row, column), as the source's labels do, or as (deltaX, deltaY), as `mover` does, gives the same four steps |
| Hormigas.DireccionesUnitarias | SimuladorHormigas/src/Hormiga.java:39-44 | `DIRECCIONES` has exactly four pairwise-distinct entries, each with `abs(dx) + abs(dy) == 1` |
| Hormigas.PasoDesdeDentro | SimuladorHormigas/src/Hormiga.java:39-44 | derived from `DIRECCIONES`, `mover` and `dentroLimites` (no method performs it): a table step from an in-bounds cell never overflows, reaches an adjacent cell, and leaves the map exactly when it crosses the edge the ant stands on |
| Hormigas.Hormiga.constructor | SimuladorHormigas/src/Hormiga.java:58-64 | a new ant has the given id, kind and position and is active: `getIdHormiga`, `getTipo`, `getPosicion` and `isActiva` return the arguments and `true` |
| Hormigas.Hormiga.Obrera | SimuladorHormigas/src/HormigaObrera.java:21-23 | a new worker has the given id and position, kind OBRERA (hence symbol `"O"`), and is active, as its getters report |
| Hormigas.Hormiga.SetPosicion | SimuladorHormigas/src/Hormiga.java:110-112 | afterwards `getPosicion()` returns the new position and `isActiva()` its old value; `getIdHormiga()` and `getTipo()` are constants |
| Hormigas.Hormiga.Detener | SimuladorHormigas/src/Hormiga.java:134-136 | afterwards `isActiva()` returns false and `getPosicion()` the old position; the new state does not depend on the old flag, so a second call changes nothing |
| Decimal.DigitChar | SimuladorHormigas/src/SimuladorColoniasHormigas.java:77 | a digit value below ten maps to the character whose offset from `'0'` is that value |
| Decimal.DecimalString | SimuladorHormigas/src/SimuladorColoniasHormigas.java:77 | the numeral Java appends for `i + 1` is non-empty, all digits, and starts with `'0'` only for zero |
| Decimal.ParseDecimalString | SimuladorHormigas/src/SimuladorColoniasHormigas.java:77 | parsing the numeral gives back the number |
| Decimal.DecimalStringInjective | SimuladorHormigas/src/SimuladorColoniasHormigas.java:77 | two numbers have the same numeral if and only if they are equal |
| Simulador.IdObrera | SimuladorHormigas/src/SimuladorColoniasHormigas.java:77 | the id `"OBRERA_" + (i + 1)` starts with the prefix `OBRERA_` followed by at least one character |
| Simulador.IdObreraDecodifica | SimuladorHormigas/src/SimuladorColoniasHormigas.java:77 | the part of `"OBRERA_" + n` after the prefix is all digits and parses back to n, so the id determines the sequence number |
| Simulador.IdObreraInyectiva | SimuladorHormigas/src/SimuladorColoniasHormigas.java:77 | `"OBRERA_" + a` equals `"OBRERA_" + b` if and only if `a == b`, so the generated ids are pairwise distinct |
| Simulador.IdsObrerasMiembro | SimuladorHormigas/src/SimuladorColoniasHormigas.java:67-77 | an id is among the first n generated if and only if it is `OBRERA_i` for some `1 <= i <= n` |
| Simulador.IdsObrerasCard | SimuladorHormigas/src/SimuladorColoniasHormigas.java:67-77 | the first n generated ids are exactly n distinct strings |
| Simulador.SimuladorColoniasHormigas.constructor | SimuladorHormigas/src/SimuladorColoniasHormigas.java:47-52 | a new simulator has an empty ant map and the simulation is not active |
| Simulador.SimuladorColoniasHormigas.Valid | SimuladorHormigas/src/SimuladorColoniasHormigas.java:77-83 | the registry invariant: every ant is filed under its own identifier, as `put(id, obrera)` does; the empty registry satisfies it |
| Simulador.UnionConObreras | SimuladorHormigas/src/SimuladorColoniasHormigas.java:77-83 | `put`-ing the workers OBRERA_1..OBRERA_n over an existing map: the keys become the old keys plus exactly those ids, each worker is found under its own id, entries under other keys are untouched, and over an empty map (or one holding only worker ids) the size is exactly n |
| Simulador.SimuladorColoniasHormigas.CrearObreras | SimuladorHormigas/src/SimuladorColoniasHormigas.java:64-87 | the spawn loop: the new map is the old map overwritten by the created ants, whose keys are exactly `OBRERA_1..OBRERA_n`; each created ant is fresh, filed under its own id, of kind OBRERA, active, and at a cell inside `[0, ANCHO) x [0, ALTO)`; the active flag is untouched |
| Simulador.SimuladorColoniasHormigas.GenerarHormigaObrera | SimuladorHormigas/src/SimuladorColoniasHormigas.java:63-93 | after the call `OBRERA_1..OBRERA_5` are all present as fresh, active, in-bounds workers under their own ids; entries under other keys are untouched; from an empty map the size is exactly 5, and a repeated call keeps it at 5 |
| Simulador.SimuladorColoniasHormigas.DetenerSimulacion | SimuladorHormigas/src/SimuladorColoniasHormigas.java:112-114 | the simulation becomes inactive and the ant map is unchanged, so the registry invariant is kept; a second call changes nothing |

## Left out

- Threads and synchronisation (`extends Thread`, `volatile`, `synchronized`): every method they guard is empty, so the model is single-threaded.
- `run()` of `Hormiga` and `HormigaObrera`, `ejecutar`, `moverTodasLasHormigas`, `moverHormigaAleatoriamente`: their bodies are empty; no move validation, nest avoidance or collision avoidance exists to model.
- Console output: `limpiarConsola`, `mostrarEstadisticas`, `actualizarVisualizacion` (called at the end of `generarHormigaObrera`), the `println` calls and `Hormiga.toString`; `mapa.prepararMapa`, `mapa.mostrarMapa` and `mapa.getHormiguero` are called by the simulator but `Mapa.java` defines none of them, and it never initialises its final fields `hormiguero` and `mapa`, so the Java does not compile as written; the model ends with the spawn loop.
- `Mapa`: only `ANCHO` and `ALTO` are modelled; the nest position and the character grid are declared but never initialised in the code.
- `INTERVALO_ACTUALIZACION` is only printed; the simulator's own copy of `DIRECCIONES` is the same table as the ant's and is modelled once, in `Hormigas.DIRECCIONES`.
- `java.util.Random`: each `nextInt(bound)` draw is a nondeterministic value in `[0, bound)`, the range `nextInt` promises; the distribution is not modelled, and the per-ant `random` field, unused by any method, is left out.
- `Main`: process entry point, banner printing and exception catch-all.
- Decimal.DecimalString: renders only non-negative numbers, because the spawn loop only appends `i + 1 >= 1`; Java's `-` sign for negative `int`s is not modelled.
- `getX`/`getY` of `Posicion` are the `x`/`y` fields of the datatype, not separate functions; `getIdHormiga`/`getTipo`/`getPosicion`/`isActiva` are the accessors `Hormiga.GetIdHormiga` .. `Hormiga.IsActiva` without contracts of their own, and the `Hormiga.constructor`, `Hormiga.Obrera`, `Hormiga.SetPosicion` and `Hormiga.Detener` rows state what they return.
- The Java `Hormiga` is abstract and `HormigaObrera` its only concrete subclass, so Java builds OBRERA ants only; the model's `Hormiga.constructor` also admits GUERRERA and REINA. The mutable `int[][] DIRECCIONES` is an immutable sequence, since no code writes to it.
- Object identity of `Posicion`: Java creates a new object in `mover`; the model treats positions as values, which is all the code relies on (no method compares them by reference).
