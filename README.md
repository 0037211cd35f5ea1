# Inventories, a hotel, a bank account and a shop, in Dafny

This project models the object-oriented exercises of a Python course and proves what
each of them promises.

- **SEMANA9**: a product with getters and setters, and an inventory that keeps a list of
  products. The inventory adds a product only when its identifier is new. It removes and
  updates the first product with a given identifier, searches names case-insensitively
  for a part of the name, and lists everything.
- **SEMANA10**: the same inventory, saved to a text file after every change and loaded
  from it on start-up. Each line of the file is `id|nombre|cantidad|precio`. Loading skips
  blank lines, counts and skips corrupt lines, and keeps the first product of each
  identifier.
- **SEMANA11**: an inventory held in a dictionary from trimmed identifier to product. It
  keeps a set of normalised names (trimmed and lower-cased). It has a search sorted by
  name, a listing sorted by name and identifier, and a summary. Its dictionary form is
  `{"productos": [...]}`, which `to_dict` writes and `from_dict` reads back. The product
  is a dataclass whose setters validate and trim.
- **Hotel bookings**: rooms, and reservations over half-open date ranges
  `[entrada, salida)`. A hotel books a reservation only for a stay of at least one night
  in an existing room that no stored reservation for that room overlaps.
- **Bank account**: a private balance that changes only through guarded deposits and
  withdrawals.
- **Shop (SEMANA6)**: a product whose price setter refuses negative values. It has a
  discounted subclass whose discount stays within [0, 100] and whose total is the base
  total scaled by `1 - descuento / 100`.

Shared modules:

- `Comun` turns Python's `None` results and raised exceptions into `Option` and `Result`
  values.
- `Texto` models the string built-ins the code uses, on ASCII text:
  - `strip`, `lower`, the substring test `in`, `split` and `join` on one character
  - `str`/`int` of integers
  - `str`/`float` of prices in whole cents
- `Orden` models Python's ordering of strings and of tuples of strings, and the stable
  sort behind `list.sort(key=...)`.

## How the model is built

Objects whose methods update their fields are classes with `modifies` clauses:

- every inventory
- every product
- the hotel
- the account
- the shop's products

Each such method states its whole new state. It is proved against specification
functions on values:

- `Registros` and `Posicion` for the SEMANA10 list. `Registros` is the list of the
  products' values, one per product, in order.
- `TablaDe`, `Valores`, `DatosEnOrden` and `Nombres` for the SEMANA11 dictionary.
  `TablaDe` maps each key to its product's values. `Valores` lists the products in key
  order, as `values()` does (`EnOrden`), and `DatosEnOrden` lists their values in that
  order. `Unidades` and `ValorTotal` are the two sums of `resumen_inventario`.
- `Libre` for the hotel

The SEMANA11 sorts are `Orden.Ordenar` applied to `PorNombre` or `PorNombreEId`. These pair
each product with its sort key: the normalised name, or the pair (normalised name,
identifier).

Each class keeps an invariant `Valid()`:

- identifiers are unique
- the SEMANA11 key order and name index agree with the dictionary
- stored reservations are pairwise disjoint
- the balance and price are never negative
- the discount lies in [0, 100]

Each loop of the source is a `for`/`while` loop with invariants:

- `id_existe`
- `eliminar_por_id`
- `actualizar_por_id`
- `buscar_por_nombre`
- `esta_disponible`
- `cargar_desde_archivo`
- `guardar_en_archivo`
- `from_dict`

Other modelling choices:

- A Python `dict` remembers the order in which keys were first inserted. The SEMANA11
  inventory therefore carries that order as `orden`, next to the map `productos`.
- SEMANA10 stores prices in the file as text. Its prices are integers counting cents.
  `str(precio)` is modelled as the shortest decimal form of those cents (`3.0`, `2.5`,
  `0.05`), which is what Python prints for prices of moderate size (see "## Left out").
- The file is a string. The operating system's answer to a save or a load is a boolean
  parameter.
- Saving writes `\n` after every line. Loading reads the file in Python's universal-newline
  mode: `\r\n` and a lone `\r` both end a line, like `\n` (`TraducirSaltos`).
- Exceptions become `Err`/`Some(error)` results, and printed success or failure messages
  become boolean results.

The main results:

- **SEMANA10 save and load round trip.** Saving a list of distinct valid products, then
  loading the file, gives back exactly that list with no corrupt line (`GuardarCargar`).
  The products must have no newline and no carriage return in their identifier or name.
  Loading any list of lines keeps, for each identifier, the first product the lines hold,
  in file order, and accounts for every line (`CargarLineasPrimero`).
- **SEMANA11 round trip.** `from_dict(to_dict())` reads back the stored values in
  dictionary order. It gives the same dictionary exactly when every key is already its
  product's identifier (`LlenarMismaTabla`). Otherwise it keys each product by its own
  untrimmed identifier (`LlenarIdentificadores`).
- **Sorted views.** Search and listing return the right products, sorted. Between equal
  names the search keeps dictionary order.
- **Hotel.** The hotel never stores two overlapping reservations.

## Model

| member | source | states |
|---|---|---|
| Texto.Strip | SEMANA11/inventario_avanzado/inventario.py:21-22 | `strip()` leaves no whitespace at either end, keeps only characters of the input, never lengthens it, and is empty exactly when the input is all whitespace |
| Texto.StripCorrecto | SEMANA11/inventario_avanzado/inventario.py:21-22 | the trimmed slice holds only characters of the input and is empty exactly when the input is all whitespace |
| Texto.StripSinBordes | SEMANA11/inventario_avanzado/inventario.py:21-22 | stripping a string with no whitespace ends returns it unchanged |
| Texto.StripIdempotente | SEMANA11/inventario_avanzado/inventario.py:21-22 | `strip()` applied twice equals `strip()` applied once |
| Texto.Lower | SEMANA11/inventario_avanzado/inventario.py:22 | `lower()` keeps the length, leaves no capital letter and changes no character that is not a capital |
| Texto.LowerSinMayusculas | SEMANA11/inventario_avanzado/inventario.py:22 | a text with no capital letter is its own lower-case form |
| Texto.LowerIdempotente | SEMANA11/inventario_avanzado/inventario.py:22 | `lower()` applied twice equals `lower()` applied once |
| Texto.ContieneSii | SEMANA9/inventario.py:71 | the substring test holds exactly when the query occurs at some position of the name |
| Texto.ContieneVacio | SEMANA9/inventario.py:68-71 | the empty query is contained in every name |
| Texto.Dividir | SEMANA10/producto.py:54 | `split` on one character gives at least one piece and no piece holds the separator |
| Texto.DividirPrefijo | SEMANA10/producto.py:54 | splitting text that starts with a separator-free piece glues that piece to the first piece of the rest |
| Texto.DividirUnir | SEMANA10/producto.py:54 | splitting undoes joining when no piece holds the separator |
| Texto.UnirDividir | SEMANA10/producto.py:54 | joining the pieces of a split gives back the text |
| Texto.TraducirSaltos | SEMANA10/inventario.py:128-129 | universal-newline reading leaves no carriage return and never lengthens the text |
| Texto.TraducirSinRetorno | SEMANA10/inventario.py:128-129 | a text without carriage returns is read unchanged |
| Texto.FormatoNat | SEMANA10/producto.py:46 | `str` of a natural number is digits only, with no leading zero |
| Texto.ValorFormatoNat | SEMANA10/producto.py:46 | the digits of a natural number denote that number |
| Texto.LeerFormatoNat | SEMANA10/producto.py:60 | reading back the digits of a natural number gives that number |
| Texto.FormatoEntero | SEMANA10/producto.py:46 | `str` of an integer holds only digits and a minus sign |
| Texto.LeerFormatoEntero | SEMANA10/producto.py:60 | `int(str(i)) == i` for every integer |
| Texto.FormatoPrecio | SEMANA10/producto.py:46 | `str` of a price in cents is digits, a point and an optional minus sign, and ends in a digit |
| Texto.CentavosFraccion | SEMANA10/producto.py:61 | the printed fraction digits of `f` hundredths stand for `f` hundredths |
| Texto.LeerFormatoDecimal | SEMANA10/producto.py:61 | reading back the printed form of a non-negative price gives its cents |
| Texto.LeerFormatoPrecio | SEMANA10/producto.py:61 | `float(str(x)) == x` for every price in whole cents, negative ones included |
| Orden.LexIrreflexivo | SEMANA11/inventario_avanzado/inventario.py:79 | lexicographic order on sequences is irreflexive for a strict element order |
| Orden.LexTransitivo | SEMANA11/inventario_avanzado/inventario.py:79 | lexicographic order on sequences is transitive for a strict element order |
| Orden.LexTricotomia | SEMANA11/inventario_avanzado/inventario.py:79 | any two sequences are equal or ordered one way or the other |
| Orden.CadenaOrdenEstricto | SEMANA11/inventario_avanzado/inventario.py:74 | Python's `<` on strings is a strict total order |
| Orden.ClaveOrdenEstricto | SEMANA11/inventario_avanzado/inventario.py:79 | Python's `<` on tuples of strings is a strict total order |
| Orden.Insertar | SEMANA11/inventario_avanzado/inventario.py:74 | insertion adds exactly the new element to the multiset |
| Orden.InsertarOrdenada | SEMANA11/inventario_avanzado/inventario.py:74 | inserting into a sorted list keeps it sorted |
| Orden.Ordenar | SEMANA11/inventario_avanzado/inventario.py:74 | the sort returns a permutation of its input, sorted by key |
| Orden.ConClaveConcat | SEMANA11/inventario_avanzado/inventario.py:74 | the elements with one key of a concatenation are those of each part, in order |
| Orden.ConClaveAusente | SEMANA11/inventario_avanzado/inventario.py:74 | a list without a key holds no element with it |
| Orden.ConClaveInsertar | SEMANA11/inventario_avanzado/inventario.py:74 | insertion places the new element after every element with an equal key |
| Orden.OrdenarEstable | SEMANA11/inventario_avanzado/inventario.py:74 | the sort is stable: for every key, the elements with that key keep their relative order |
| CuentaBancaria.Cuenta.constructor | SEMANA2/abstraccion/encapsulacion/cuenta_bancaria.py:10-12 | a new account has its holder and a zero balance |
| CuentaBancaria.Cuenta.Depositar | SEMANA2/abstraccion/encapsulacion/cuenta_bancaria.py:14-20 | a deposit is accepted exactly when positive and then adds to the balance; a refused one changes nothing; the balance stays non-negative |
| CuentaBancaria.Cuenta.Retirar | SEMANA2/abstraccion/encapsulacion/cuenta_bancaria.py:22-31 | a withdrawal is accepted exactly when positive and not above the balance and then subtracts it; a refused one changes nothing; the balance stays non-negative |
| CuentaBancaria.Cuenta.MostrarSaldo | SEMANA2/abstraccion/encapsulacion/cuenta_bancaria.py:33-35 | returns the balance, which is never negative |
| Compras.Producto.Nuevo | SEMANA6/main.py:17-20 | construction succeeds exactly when the price is not negative, raising ValueError otherwise, and stores the name and price |
| Compras.Producto.SetPrecio | SEMANA6/main.py:28-34 | a negative price raises ValueError and changes nothing; any other is stored |
| Compras.Producto.CalcularTotal | SEMANA6/main.py:36-43 | ValueError exactly for a non-positive quantity; otherwise price times quantity, never negative |
| Compras.ProductoConDescuento.Nuevo | SEMANA6/main.py:56-58 | construction succeeds exactly when the price is not negative and the discount lies in [0, 100], raising ValueError otherwise |
| Compras.ProductoConDescuento.SetDescuento | SEMANA6/main.py:64-70 | a discount outside [0, 100] raises ValueError and changes nothing; any other is stored |
| Compras.ProductoConDescuento.CalcularTotal | SEMANA6/main.py:72-79 | fails exactly when the base total fails, with its error; otherwise lies between zero and the base total, equals it at 0 % and is zero at 100 % |
| SistemaReservas.Reserva.Noches | EjemplosMundoReal_POO/sistema_reservas.py:37-39 | the number of nights counts exactly the occupied days `[entrada, salida)` |
| SistemaReservas.Reserva.SeSuperpone | EjemplosMundoReal_POO/sistema_reservas.py:45-52 | reservations of different rooms never overlap; two of the same room that share an occupied day do |
| SistemaReservas.SuperposicionSiiDiaComun | EjemplosMundoReal_POO/sistema_reservas.py:45-52 | two stays of at least one night overlap exactly when they share the room number and some occupied day |
| SistemaReservas.SuperposicionSimetrica | EjemplosMundoReal_POO/sistema_reservas.py:50-52 | overlap is symmetric |
| SistemaReservas.ConsecutivasNoSeSuperponen | EjemplosMundoReal_POO/sistema_reservas.py:48-52 | a stay that ends on the day another begins does not overlap it |
| SistemaReservas.AgregarLibre | EjemplosMundoReal_POO/sistema_reservas.py:98-103 | appending a reservation no stored one overlaps keeps the book pairwise disjoint |
| SistemaReservas.PrimeraHabitacion | EjemplosMundoReal_POO/sistema_reservas.py:93 | `next(...)` gives the first room with the number, and `None` exactly when no room has it |
| SistemaReservas.Hotel.constructor | EjemplosMundoReal_POO/sistema_reservas.py:61-64 | a new hotel has its name and no rooms or reservations |
| SistemaReservas.Hotel.AgregarHabitacion | EjemplosMundoReal_POO/sistema_reservas.py:66-68 | the room is appended and the reservations are untouched |
| SistemaReservas.Hotel.EstaDisponible | EjemplosMundoReal_POO/sistema_reservas.py:76-82 | available exactly when no stored reservation overlaps the proposed stay |
| SistemaReservas.Hotel.CrearReserva | EjemplosMundoReal_POO/sistema_reservas.py:84-105 | refuses, in this order, a stay that does not end after it starts, an unknown room and an overlapping stay, changing nothing; otherwise appends exactly the new reservation for the first room with that number; no two stored reservations ever overlap |
| Semana9Producto.Producto.constructor | SEMANA9/producto.py:9-13 | stores exactly the given values |
| Semana9Producto.Producto.SetNombre | SEMANA9/producto.py:29-30 | changes the name only |
| Semana9Producto.Producto.SetCantidad | SEMANA9/producto.py:32-33 | changes the quantity only |
| Semana9Producto.Producto.SetPrecio | SEMANA9/producto.py:35-36 | changes the price only |
| Semana9Inventario.Posicion | SEMANA9/inventario.py:41-42 | the index of the first product with the identifier, or the length exactly when there is none |
| Semana9Inventario.Coincidencias | SEMANA9/inventario.py:68-73 | the matches come from the list, each matches, and every matching product is among them |
| Semana9Inventario.CoincidenciasVacia | SEMANA9/inventario.py:68-73 | an empty query returns the whole list |
| Semana9Inventario.Inventario.constructor | SEMANA9/inventario.py:16-17 | a new inventory is empty |
| Semana9Inventario.Inventario.IdExiste | SEMANA9/inventario.py:19-24 | true exactly when some product has the identifier |
| Semana9Inventario.Inventario.AnadirProducto | SEMANA9/inventario.py:26-34 | appends exactly when the identifier is new, otherwise changes nothing; identifiers stay unique |
| Semana9Inventario.Inventario.EliminarPorId | SEMANA9/inventario.py:36-45 | removes the product with the identifier, keeping the others in order, and reports whether there was one; afterwards no product has it |
| Semana9Inventario.Inventario.ActualizarPorId | SEMANA9/inventario.py:47-61 | sets the given quantity and price of the product with the identifier, keeps its name, and leaves every other product as it was |
| Semana9Inventario.Inventario.BuscarPorNombre | SEMANA9/inventario.py:63-73 | the products, in list order, whose lower-cased name contains the stripped, lower-cased query |
| Semana9Inventario.Inventario.MostrarTodos | SEMANA9/inventario.py:75-77 | returns the list itself |
| Semana10Producto.Producto.constructor | SEMANA10/producto.py:10-14 | stores exactly the given values |
| Semana10Producto.Producto.SetNombre | SEMANA10/producto.py:30-31 | changes the name only |
| Semana10Producto.Producto.SetCantidad | SEMANA10/producto.py:33-34 | changes the quantity only |
| Semana10Producto.Producto.SetPrecio | SEMANA10/producto.py:36-37 | changes the price only |
| Semana10Producto.NumerosSinSeparador | SEMANA10/producto.py:46 | the printed quantity and price hold no `|`, no newline and no edge whitespace |
| Semana10Producto.Producto.ToLinea | SEMANA10/producto.py:40-46 | the line of a product with valid values reads back as those values |
| Semana10Producto.LineaDe | SEMANA10/producto.py:40-46 | the line of a record whose identifier and name hold no `|` splits back into its four fields |
| Semana10Producto.CaracteresDeLinea | SEMANA10/producto.py:46 | every character of the line comes from the identifier or the name, or is a `|` or part of a number |
| Semana10Producto.UnirCampos | SEMANA10/producto.py:46 | the line is the four fields joined by `|` |
| Semana10Producto.DesdeLinea | SEMANA10/producto.py:48-69 | every product read has a non-empty trimmed identifier and name without `|` and a non-negative quantity and price |
| Semana10Producto.DesdeLineaCampos | SEMANA10/producto.py:54-61 | a line that is not four fields is refused for that reason; an accepted one has four fields, each read as the record's value |
| Semana10Producto.BlancaNoEsProducto | SEMANA10/producto.py:54-56 | a blank line is refused for its field count |
| Semana10Producto.LineaSinBordes | SEMANA10/producto.py:46 | the line of a valid record is non-empty with no edge whitespace |
| Semana10Producto.DesdeLineaLineaDe | SEMANA10/producto.py:40-69 | reading back the line of a valid record gives that record |
| Semana10Producto.DesdeLineaCanonica | SEMANA10/producto.py:40-69 | any accepted line reads the same as the line its product writes |
| Semana10Inventario.RegistrosAgregar | SEMANA10/inventario.py:38 | appending a product appends its values |
| Semana10Inventario.Posicion | SEMANA10/inventario.py:50-51 | the index of the first record with the identifier, or the length when there is none |
| Semana10Inventario.Leer | SEMANA10/inventario.py:130-133 | a line that reads as a product reads as a valid one |
| Semana10Inventario.PasoUnicos | SEMANA10/inventario.py:130-138 | one turn of the load loop keeps identifiers unique and records valid |
| Semana10Inventario.CargarLineas | SEMANA10/inventario.py:125-138 | the loaded list has unique identifiers and only valid records |
| Semana10Inventario.CargarLineasPaso | SEMANA10/inventario.py:129-138 | one more line is one more turn of the loop |
| Semana10Inventario.CargarLineasPrimero | SEMANA10/inventario.py:125-138 | the loaded products are the first record of each identifier in the file, all of them, in file order; corrupt, read and blank lines add up to the line count |
| Semana10Inventario.CargarTexto | SEMANA10/inventario.py:128-138 | the loaded list has unique identifiers and only valid records; a text without carriage returns loads as its lines split at `\n` |
| Semana10Inventario.JuntarAgregar | SEMANA10/inventario.py:168-170 | writing one more line appends it and a newline |
| Semana10Inventario.JuntarUnir | SEMANA10/inventario.py:168-170 | the written lines are the lines joined by newlines, plus an empty last piece |
| Semana10Inventario.JuntarSin | SEMANA10/inventario.py:168-170 | a character other than the newline that no line holds is not in the written text |
| Semana10Inventario.SerializarAgregar | SEMANA10/inventario.py:168-170 | writing one more product appends its line and a newline |
| Semana10Inventario.SerializarFinal | SEMANA10/inventario.py:168-170 | the saved file is empty exactly when there are no products, and otherwise ends with a newline |
| Semana10Inventario.SerializarUnir | SEMANA10/inventario.py:168-170 | the file is the lines joined by newlines, plus an empty last piece |
| Semana10Inventario.SerializarSinRetorno | SEMANA10/inventario.py:168-170 | the file saved for products with no carriage return in identifier or name holds none |
| Semana10Inventario.PasoLinea | SEMANA10/inventario.py:129-136 | loading the line of a valid record with a new identifier appends that record |
| Semana10Inventario.CargarLineasDe | SEMANA10/inventario.py:128-138 | loading the lines of distinct valid records gives them back with no corrupt line |
| Semana10Inventario.SerializarPrefijo | SEMANA10/inventario.py:168-170 | the text of a longer prefix is the shorter one plus one line |
| Semana10Inventario.LineasSinSalto | SEMANA10/inventario.py:170 | no written line holds a newline |
| Semana10Inventario.DividirSerializar | SEMANA10/inventario.py:129-170 | the saved file, split at newlines, is the products' lines and an empty last piece |
| Semana10Inventario.CargarFinalVacio | SEMANA10/inventario.py:130-131 | the empty piece after the final newline is skipped |
| Semana10Inventario.GuardarCargar | SEMANA10/inventario.py:125-170 | saving distinct valid products with no newline or carriage return in identifier or name, then loading the file, gives exactly those products with no corrupt line |
| Semana10Inventario.Coincidencias | SEMANA10/inventario.py:81-87 | the matches come from the list, each matches, and every matching product is among them |
| Semana10Inventario.CoincidenciasVacia | SEMANA10/inventario.py:81-87 | an empty query returns the whole list |
| Semana10Inventario.QuitarDistintos | SEMANA10/inventario.py:50-52 | removing one product keeps the identifiers distinct |
| Semana10Inventario.ActualizarRegistrosEfecto | SEMANA10/inventario.py:66-71 | the update keeps the length, every identifier and name, and every record of another identifier, and is the identity when the identifier is absent |
| Semana10Inventario.PosicionMismosIds | SEMANA10/inventario.py:66-67 | lists with the same identifiers in the same order find an identifier at the same position |
| Semana10Inventario.ActualizarIdempotente | SEMANA10/inventario.py:66-71 | updating twice with the same values is updating once |
| Semana10Inventario.Inventario.constructor | SEMANA10/inventario.py:15-20 | starts empty and then loads the file, read with universal newlines; when the file cannot be reached the list stays empty |
| Semana10Inventario.Inventario.IdExiste | SEMANA10/inventario.py:25-29 | true exactly when some product has the identifier |
| Semana10Inventario.Inventario.GuardarEnArchivo | SEMANA10/inventario.py:153-186 | on success the file is the products' lines in list order; on failure it keeps its previous contents; the list is untouched |
| Semana10Inventario.Inventario.CargarDesdeArchivo | SEMANA10/inventario.py:112-151 | when the file cannot be reached nothing changes; otherwise the list holds the products the file's lines give, read with universal newlines, and the corrupt lines are counted |
| Semana10Inventario.Inventario.CargarLinea | SEMANA10/inventario.py:129-138 | one turn of the load loop does to the list and the count what the loop specification says |
| Semana10Inventario.Inventario.AgregarNuevo | SEMANA10/inventario.py:135-136 | a new product holding the record is appended |
| Semana10Inventario.Inventario.AnadirProducto | SEMANA10/inventario.py:31-44 | a duplicate identifier changes nothing; otherwise the product is appended and saved, and it stays in the list when the save fails |
| Semana10Inventario.Inventario.EliminarPorId | SEMANA10/inventario.py:46-60 | removes the first product with the identifier and saves; reports success only when there was one and the save went through |
| Semana10Inventario.Inventario.ActualizarPorId | SEMANA10/inventario.py:62-79 | updates the first product with the identifier as `ActualizarRegistros` says and saves; the list's objects are the same ones |
| Semana10Inventario.Inventario.Buscar | SEMANA10/inventario.py:50-51 | the index of the first product with the identifier, or the length |
| Semana10Inventario.Inventario.ActualizarEn | SEMANA10/inventario.py:68-71 | the setter calls change only that product's quantity and price |
| Semana10Inventario.Inventario.BuscarPorNombre | SEMANA10/inventario.py:81-87 | the products, in list order, whose lower-cased name contains the stripped, lower-cased query |
| Semana10Inventario.Inventario.MostrarTodos | SEMANA10/inventario.py:89-90 | returns the list itself |
| Semana11Producto.Producto.constructor | SEMANA11/inventario_avanzado/producto.py:4-13 | stores the given values without validation |
| Semana11Producto.Producto.SetId | SEMANA11/inventario_avanzado/producto.py:19-22 | an all-whitespace identifier raises ValueError and changes nothing; any other is stored trimmed and nothing else changes |
| Semana11Producto.Producto.SetNombre | SEMANA11/inventario_avanzado/producto.py:27-30 | an all-whitespace name raises ValueError and changes nothing; any other is stored trimmed and nothing else changes |
| Semana11Producto.Producto.SetCantidad | SEMANA11/inventario_avanzado/producto.py:35-38 | a negative quantity raises ValueError and changes nothing; any other is stored |
| Semana11Producto.Producto.SetPrecio | SEMANA11/inventario_avanzado/producto.py:43-46 | a negative price raises ValueError and changes nothing; any other is stored |
| Semana11Producto.Producto.ToDict | SEMANA11/inventario_avanzado/producto.py:48-54 | the dictionary a product writes reads back as its four values |
| Semana11Producto.ADict | SEMANA11/inventario_avanzado/producto.py:48-54 | the dictionary has exactly the four keys, strings under identifier and name and numbers under quantity and price |
| Semana11Producto.Truncar | SEMANA11/inventario_avanzado/producto.py:61 | `int()` of a float rounds toward zero |
| Semana11Producto.DesdeDict | SEMANA11/inventario_avanzado/producto.py:56-63 | a missing identifier raises KeyError; a product read has all four keys and each field is the conversion of its entry |
| Semana11Producto.DesdeDictADict | SEMANA11/inventario_avanzado/producto.py:48-63 | `from_dict(to_dict())` gives back the same four values |
| Semana11Producto.DesdeDictBienFormado | SEMANA11/inventario_avanzado/producto.py:56-63 | a dictionary with all four keys, string identifier and name and numeric quantity and price is read, keeping both strings |
| Semana11Inventario.Norm | SEMANA11/inventario_avanzado/inventario.py:20-22 | the normalised text is no longer than the input, has no capital letter, and is empty exactly when the input is all whitespace |
| Semana11Inventario.NormIdempotente | SEMANA11/inventario_avanzado/inventario.py:20-22 | a normalised text has no edge whitespace and normalising it again changes nothing |
| Semana11Inventario.DistintasAgregar | SEMANA11/inventario_avanzado/inventario.py:31 | a new key can go last in the key order |
| Semana11Inventario.SinClave | SEMANA11/inventario_avanzado/inventario.py:38 | the keys left after `pop` are the old ones without that key |
| Semana11Inventario.SinClaveDistintas | SEMANA11/inventario_avanzado/inventario.py:38 | removing a key keeps the keys distinct |
| Semana11Inventario.ValoresAgregar | SEMANA11/inventario_avanzado/inventario.py:31 | a new key adds its value to the values |
| Semana11Inventario.TablaPoner | SEMANA11/inventario_avanzado/inventario.py:105 | storing a product under a key stores its values there |
| Semana11Inventario.NombresAgregar | SEMANA11/inventario_avanzado/inventario.py:31-32 | adding a product under a new key adds its normalised name to the names |
| Semana11Inventario.CardinalDistintas | SEMANA11/inventario_avanzado/inventario.py:90 | distinct keys are as many as the set they form |
| Semana11Inventario.Coincidencias | SEMANA11/inventario_avanzado/inventario.py:68-71 | every match comes from the values and its normalised name contains the query |
| Semana11Inventario.CoincidenciasCompletas | SEMANA11/inventario_avanzado/inventario.py:68-71 | no matching product is missed |
| Semana11Inventario.QuitarUno | SEMANA11/inventario_avanzado/inventario.py:74 | taking the same element out of two permutations leaves two permutations |
| Semana11Inventario.SegundosPermutacion | SEMANA11/inventario_avanzado/inventario.py:74 | dropping the keys of two permutations leaves two permutations |
| Semana11Inventario.SegundosPaso | SEMANA11/inventario_avanzado/inventario.py:74 | putting the same pair back on both sides keeps the values a permutation |
| Semana11Inventario.ClaveUnaCadena | SEMANA11/inventario_avanzado/inventario.py:74 | one-string keys compare as their strings |
| Semana11Inventario.OrdenarPorNombre | SEMANA11/inventario_avanzado/inventario.py:74 | the sort by name keeps the number of products |
| Semana11Inventario.OrdenarPorNombreEId | SEMANA11/inventario_avanzado/inventario.py:79 | the sort by (name, identifier) keeps the number of products |
| Semana11Inventario.OrdenarPorNombreCorrecto | SEMANA11/inventario_avanzado/inventario.py:74 | the sort by name is a permutation, ordered by normalised name, and stable between equal names |
| Semana11Inventario.OrdenarPorNombreEIdCorrecto | SEMANA11/inventario_avanzado/inventario.py:78-79 | the sort by (name, identifier) is a permutation ordered by that pair |
| Semana11Inventario.UnidadesQuitar | SEMANA11/inventario_avanzado/inventario.py:91 | taking one product out of a list takes its quantity out of the units |
| Semana11Inventario.ValorQuitar | SEMANA11/inventario_avanzado/inventario.py:92 | taking one product out of a list takes its quantity times price out of the value |
| Semana11Inventario.UnidadesPermutacion | SEMANA11/inventario_avanzado/inventario.py:91 | the units depend only on which products are listed, not on their order |
| Semana11Inventario.ValorPermutacion | SEMANA11/inventario_avanzado/inventario.py:92 | the value depends only on which products are listed, not on their order |
| Semana11Inventario.SinClavePosicion | SEMANA11/inventario_avanzado/inventario.py:38 | in distinct keys, `pop` of the key at one position removes exactly that position |
| Semana11Inventario.SinClaveAusente | SEMANA11/inventario_avanzado/inventario.py:38 | dropping a key that is not there leaves the key order unchanged |
| Semana11Inventario.EnOrdenQuitar | SEMANA11/inventario_avanzado/inventario.py:38 | dropping one key from the dictionary and its order drops its product from `values()` and keeps the rest in order |
| Semana11Inventario.TotalesAgregar | SEMANA11/inventario_avanzado/inventario.py:31 | storing a product under a new key, last in order, adds its quantity to the units and its quantity times price to the value |
| Semana11Inventario.TotalesQuitarClave | SEMANA11/inventario_avanzado/inventario.py:38 | removing a key takes its product's quantity out of the units and its quantity times price out of the value |
| Semana11Inventario.UnidadesCotas | SEMANA11/inventario_avanzado/inventario.py:91 | non-negative quantities sum to a non-negative total no less than any one of them |
| Semana11Inventario.Decodificar | SEMANA11/inventario_avanzado/inventario.py:103-104 | reading the entries in order gives one value per entry |
| Semana11Inventario.Llenar | SEMANA11/inventario_avanzado/inventario.py:103-105 | filling the dictionary lists each key once, exactly the stored ones, each product under its own identifier |
| Semana11Inventario.LlenarClaves | SEMANA11/inventario_avanzado/inventario.py:103-105 | the stored keys are exactly the identifiers read |
| Semana11Inventario.LlenarUltimo | SEMANA11/inventario_avanzado/inventario.py:105 | the value under an identifier is the last product read with it |
| Semana11Inventario.LlenarDistintos | SEMANA11/inventario_avanzado/inventario.py:103-105 | distinct identifiers fill the dictionary in their own order, each under its own value |
| Semana11Inventario.LlenarDistintosPaso | SEMANA11/inventario_avanzado/inventario.py:105 | a new identifier goes last, under its own value |
| Semana11Inventario.Inventario.ValoresCompletos | SEMANA11/inventario_avanzado/inventario.py:78 | the values list has one entry per key and holds exactly the stored products |
| Semana11Inventario.Inventario.constructor | SEMANA11/inventario_avanzado/inventario.py:16-18 | a new inventory is empty, with an empty name index |
| Semana11Inventario.Inventario.ReconstruirIndex | SEMANA11/inventario_avanzado/inventario.py:24-25 | the index becomes the normalised names of the stored products |
| Semana11Inventario.Inventario.AgregarProducto | SEMANA11/inventario_avanzado/inventario.py:27-32 | a used trimmed identifier raises ValueError and changes nothing; otherwise the product goes in under it, last in order, and its normalised name joins the index |
| Semana11Inventario.Inventario.EliminarProducto | SEMANA11/inventario_avanzado/inventario.py:34-40 | a missing trimmed identifier raises KeyError and changes nothing; otherwise exactly that key goes, the others keep their order, and the index is rebuilt |
| Semana11Inventario.Inventario.ActualizarProducto | SEMANA11/inventario_avanzado/inventario.py:42-56 | a missing trimmed identifier raises KeyError and changes nothing; otherwise that product changes as `Actualizar` says and no other does |
| Semana11Inventario.Inventario.BuscarPorNombre | SEMANA11/inventario_avanzado/inventario.py:58-75 | an all-whitespace query finds nothing; the result has at most one entry per key and is sorted by normalised name |
| Semana11Inventario.Inventario.BuscarPorNombreCorrecto | SEMANA11/inventario_avanzado/inventario.py:58-75 | empty for an empty query; otherwise exactly the stored products whose normalised name contains the query, sorted by name, stable between equal names |
| Semana11Inventario.Inventario.ListarTodos | SEMANA11/inventario_avanzado/inventario.py:77-80 | one entry per key, sorted by (normalised name, identifier) |
| Semana11Inventario.Inventario.ListarTodosCorrecto | SEMANA11/inventario_avanzado/inventario.py:77-80 | one entry per key, exactly the stored products, ordered by (normalised name, identifier) |
| Semana11Inventario.Inventario.ObtenerProducto | SEMANA11/inventario_avanzado/inventario.py:82-83 | the product under the trimmed identifier, and none exactly when it is not a key |
| Semana11Inventario.Inventario.ResumenInventario | SEMANA11/inventario_avanzado/inventario.py:85-93 | the first number is the count of keys; the second is the sum of the stored quantities and the third the sum of quantity times price, over `values()` |
| Semana11Inventario.Inventario.ResumenListado | SEMANA11/inventario_avanzado/inventario.py:90-92 | the units and the value equal the totals over the listing, so they do not depend on the order of the keys |
| Semana11Inventario.Inventario.ResumenCorrecto | SEMANA11/inventario_avanzado/inventario.py:85-93 | the product count equals the listing's length; with non-negative quantities the units are non-negative and no fewer than any product holds |
| Semana11Inventario.Inventario.ToDict | SEMANA11/inventario_avanzado/inventario.py:95-98 | one entry per key, in dictionary order, each reading back as the values of the product under that key |
| Semana11Inventario.Inventario.ToDictDecodificar | SEMANA11/inventario_avanzado/inventario.py:95-104 | the entries `to_dict` writes read back as the stored values, in order |
| Semana11Inventario.Inventario.LlenarIdentificadores | SEMANA11/inventario_avanzado/inventario.py:100-107 | reading back keys each product by its own identifier, which may differ from the trimmed key it was stored under |
| Semana11Inventario.Inventario.LlenarMismaTabla | SEMANA11/inventario_avanzado/inventario.py:95-107 | when each key is its product's identifier, reading back gives the same keys, order and values |
| Semana11Inventario.Inventario.Poner | SEMANA11/inventario_avanzado/inventario.py:104-105 | a new product with the values goes in under its identifier, replacing any there; a new key goes last |
| Semana11Inventario.Inventario.FromDict | SEMANA11/inventario_avanzado/inventario.py:100-107 | fails exactly when an entry cannot be read, with the first such error; otherwise a fresh valid inventory whose keys, order and values are those `Llenar` gives |
| Semana11Inventario.DecodificarTodos | SEMANA11/inventario_avanzado/inventario.py:103-104 | entries that each read as a value read as the list of them |
| Semana11Inventario.DecodificarPaso | SEMANA11/inventario_avanzado/inventario.py:103-104 | one more readable entry adds its value at the end |
| Semana11Inventario.LlenarPaso | SEMANA11/inventario_avanzado/inventario.py:105 | one more value fills one more entry of the dictionary |
| Semana11Inventario.DecodificarError | SEMANA11/inventario_avanzado/inventario.py:103-104 | the first entry that fails decides the error of the whole list |
| Semana11Inventario.DecodificarErrorPrefijo | SEMANA11/inventario_avanzado/inventario.py:103-104 | after a failing entry every longer prefix fails with its error |
| Semana11Inventario.ActualizarCorrecto | SEMANA11/inventario_avanzado/inventario.py:51-56 | the update succeeds exactly when neither value is negative and then sets both; it never touches identifier or name; a valid quantity stays applied when the price is then refused |

## Left out

- Console output, menus and `main` programs are not part of this model. That covers
  `listar_habitaciones`, `mostrar_reservas`, every `__str__` and every printed message.
  Where a message reports success or failure, the model returns a boolean or an error
  value instead.
- The SEMANA11 `storage.py` and `main.py` are not part of this model. Neither is the JSON
  encoding: the model starts from the decoded dictionary.
- `costo_total` of a reservation is not modelled. It is a float product whose only
  consumer prints it.
- Dates are day numbers. `date` arithmetic and calendars are not modelled.
- Floating point is modelled as exact `real` arithmetic. Where the source rounds, for
  `round(valor, 2)` or `:.2f`, the model keeps the exact value.
- Semana11Inventario.Inventario.ResumenInventario: returns the total value before
  `round(valor, 2)`.
- Semana10Producto.DesdeLinea: `float()` of the price is modelled only for a plain
  decimal with at most two fraction digits and an optional sign. Python also accepts
  exponents, more digits, `inf`, `nan` and underscores. Such a line counts as corrupt in
  the model.
- Texto.LeerPrecio: same restriction as `DesdeLinea` for the price.
- Texto.LeerEntero: `int()` is modelled on an optional sign followed by ASCII digits.
  Python also accepts underscores and non-ASCII digits.
- Semana11Producto.Cadena: `str()` of a float is not modelled. An identifier or name
  stored as a JSON number with a fraction is reported as ValueError, where Python would
  use its `repr`.
- Semana11Producto.AReal: `float()` of a string is limited as in `Texto.LeerPrecio`.
- Texto.Strip: `strip()` and `lower()` are modelled on ASCII whitespace and ASCII
  letters. Unicode whitespace and case mappings are not modelled.
- Semana10Inventario.Inventario.CargarDesdeArchivo: the file is read as its text after
  universal-newline translation, split at `\n`. Python's line iteration keeps each `\n`,
  but every line is stripped before use, so the loaded products are the same. Python's
  own decoding of UTF-8 bytes is not modelled: the file is already text.
- Saving on a system whose line separator is `\r\n` writes `\r\n` where the model
  writes `\n`. Universal-newline reading turns both into the same lines.
- Semana10Inventario.Inventario.CargarDesdeArchivo: a read error after the list was
  reset is not modelled. In Python that leaves the list empty and returns False. The
  model's `accesoOk` covers the earlier failure, where `asegurar_archivo` fails and
  nothing changes.
- Creating a missing file, the temporary file, `os.replace` and the clean-up of the
  temporary file are represented only by the `escrituraOk`/`accesoOk` booleans.
- Type checks that raise TypeError (`isinstance`) are not modelled. Parameters are typed,
  so such calls cannot be written.
- The SEMANA6 subclass is modelled by composition. `ProductoConDescuento` holds its base
  `Producto`. Dynamic dispatch of `calcular_total` through a base reference is not
  modelled.
- Aliasing is not modelled. A SEMANA11 product whose name is changed through another
  reference would leave the name index stale. The model proves the index correct for
  changes made through the inventory.
- The SEMANA9 and SEMANA10 inventories accept any product object. A product whose name
  holds `|`, a newline or a carriage return, or whose quantity or price is negative, is
  saved but not read back as it was. `GuardarCargar` therefore assumes products that can
  be saved (`Guardable`).
- Texto.FormatoPrecio: the shortest decimal form of the cents is what Python's
  `str(float)` prints only for prices below 2^46 cents. Above that a float can no longer
  hold every cent (70368744177664.01 prints as 70368744177664.02), and from 1e16 Python
  writes an exponent. The model keeps every price exact.
- Semana11Producto.DesdeDict: JSON `true`, `false` and `null`, lists and objects are not
  modelled as dictionary values. Under identifier or name Python stores `str()` of any of
  them (`"True"`, `"None"`, the text of a list). Under quantity or price it reads `True`
  and `False` as 1 and 0, and raises TypeError for `None`, a list or an object.
