/** The hotel booking example: rooms, reservations over half-open date ranges
    `[entrada, salida)` and a hotel that admits a reservation only when no stored
    reservation for the same room overlaps it. Dates are day numbers, so the number of
    nights is a difference of integers. */
module SistemaReservas {
  import opened Comun

  datatype Cliente = Cliente(nombre: string, cedula: string)

  datatype Habitacion = Habitacion(numero: int, tipo: string, precioPorNoche: real)

  datatype Reserva = Reserva(cliente: Cliente, habitacion: Habitacion, entrada: int, salida: int)
  {
    /** `noches`: the days between arrival and departure. The days the reservation
        occupies are exactly the `Noches()` days starting on the arrival day. */
    function Noches(): (n: int)
      ensures forall d :: Ocupa(d) <==> 0 <= d - entrada < n
    {
      salida - entrada
    }

    /** The reservation occupies the room on day `d`. */
    predicate Ocupa(d: int)
    {
      entrada <= d < salida
    }

    /** `se_superpone`: same room number, and neither stay ends before the other begins.
        Overlapping stays are for the same room, and two stays of the same room that
        occupy a common day overlap. */
    predicate SeSuperpone(otra: Reserva)
      ensures SeSuperpone(otra) ==> habitacion.numero == otra.habitacion.numero
      ensures forall d :: habitacion.numero == otra.habitacion.numero && Ocupa(d) && otra.Ocupa(d) ==>
                SeSuperpone(otra)
    {
      if habitacion.numero != otra.habitacion.numero then false
      else !(salida <= otra.entrada || entrada >= otra.salida)
    }
  }

  /** Two stays of at least one night overlap exactly when they are for the same room and
      some day is occupied by both. */
  lemma SuperposicionSiiDiaComun(a: Reserva, b: Reserva)
    requires a.Noches() > 0 && b.Noches() > 0
    ensures a.SeSuperpone(b) <==>
              a.habitacion.numero == b.habitacion.numero && exists d :: a.Ocupa(d) && b.Ocupa(d)
  {
    if a.SeSuperpone(b) {
      var d := if a.entrada < b.entrada then b.entrada else a.entrada;
      assert a.Ocupa(d) && b.Ocupa(d);
    }
  }

  /** Overlap does not depend on which reservation asks. */
  lemma SuperposicionSimetrica(a: Reserva, b: Reserva)
    ensures a.SeSuperpone(b) == b.SeSuperpone(a)
  {
  }

  /** Back-to-back stays, one leaving the day the other arrives, do not overlap. */
  lemma ConsecutivasNoSeSuperponen(a: Reserva, b: Reserva)
    requires a.salida == b.entrada
    ensures !a.SeSuperpone(b) && !b.SeSuperpone(a)
  {
  }

  /** No stored reservation overlaps `propuesta`. */
  ghost predicate Libre(reservas: seq<Reserva>, propuesta: Reserva)
  {
    forall i :: 0 <= i < |reservas| ==> !propuesta.SeSuperpone(reservas[i])
  }

  /** No two stored reservations overlap. */
  ghost predicate SinSuperposiciones(reservas: seq<Reserva>)
  {
    forall i, j :: 0 <= i < |reservas| && 0 <= j < |reservas| && i != j ==>
      !reservas[i].SeSuperpone(reservas[j])
  }

  /** Appending a reservation that is free keeps the stored ones pairwise disjoint. */
  lemma AgregarLibre(reservas: seq<Reserva>, r: Reserva)
    requires SinSuperposiciones(reservas) && Libre(reservas, r)
    ensures SinSuperposiciones(reservas + [r])
  {
    var nuevas := reservas + [r];
    forall i, j | 0 <= i < |nuevas| && 0 <= j < |nuevas| && i != j
      ensures !nuevas[i].SeSuperpone(nuevas[j])
    {
      if j == |reservas| {
        SuperposicionSimetrica(nuevas[i], r);
      } else if i != |reservas| {
        assert nuevas[i] == reservas[i] && nuevas[j] == reservas[j];
      }
    }
  }

  /** The generator `next((h for h in habitaciones if h.numero == numero), None)`:
      the first room with that number, if any. */
  function PrimeraHabitacion(habitaciones: seq<Habitacion>, numero: int): (r: Option<Habitacion>)
    ensures r.None? <==> forall i :: 0 <= i < |habitaciones| ==> habitaciones[i].numero != numero
    ensures r.Some? ==> exists i :: 0 <= i < |habitaciones| && habitaciones[i] == r.value
                          && r.value.numero == numero
                          && forall j :: 0 <= j < i ==> habitaciones[j].numero != numero
  {
    if habitaciones == [] then None
    else if habitaciones[0].numero == numero then
      Some(habitaciones[0])
    else
      var r := PrimeraHabitacion(habitaciones[1..], numero);
      if r.Some? then
        var i :| 0 <= i < |habitaciones[1..]| && habitaciones[1..][i] == r.value
                 && forall j :: 0 <= j < i ==> habitaciones[1..][j].numero != numero;
        assert habitaciones[i + 1] == r.value;
        r
      else
        r
  }

  /** Why `crear_reserva` refused: the three messages it prints before returning None. */
  datatype Rechazo = FechasInvalidas | HabitacionInexistente | NoDisponible

  class Hotel {
    var nombre: string
    var habitaciones: seq<Habitacion>
    var reservas: seq<Reserva>

    /** Every stored reservation lasts at least one night, is for a registered room, and no
        two of them overlap. */
    ghost predicate Valid()
      reads this
    {
      && (forall i :: 0 <= i < |reservas| ==> reservas[i].Noches() > 0)
      && (forall i :: 0 <= i < |reservas| ==> reservas[i].habitacion in habitaciones)
      && SinSuperposiciones(reservas)
    }

    constructor (nombre: string)
      ensures Valid()
      ensures this.nombre == nombre && habitaciones == [] && reservas == []
    {
      this.nombre := nombre;
      habitaciones := [];
      reservas := [];
    }

    /** `agregar_habitacion`: appends the room; reservations are untouched. */
    method AgregarHabitacion(h: Habitacion)
      requires Valid()
      modifies this
      ensures Valid()
      ensures habitaciones == old(habitaciones) + [h]
      ensures reservas == old(reservas) && nombre == old(nombre)
    {
      habitaciones := habitaciones + [h];
    }

    /** `esta_disponible`: true exactly when no stored reservation overlaps a stay in room
        `h` from `entrada` to `salida`. */
    method EstaDisponible(h: Habitacion, entrada: int, salida: int) returns (disponible: bool)
      ensures disponible <==> Libre(reservas, Reserva(Cliente("TEMP", "000"), h, entrada, salida))
    {
      var propuesta := Reserva(Cliente("TEMP", "000"), h, entrada, salida);
      var i := 0;
      while i < |reservas|
        invariant 0 <= i <= |reservas|
        invariant forall k :: 0 <= k < i ==> !propuesta.SeSuperpone(reservas[k])
      {
        if propuesta.SeSuperpone(reservas[i]) {
          return false;
        }
        i := i + 1;
      }
      disponible := true;
    }

    /** `crear_reserva`: refuses a stay whose departure is not after its arrival, an unknown
        room number, or a room already taken on one of those days, leaving the book as it
        was; otherwise appends exactly the new reservation, for the first room with that
        number, and returns it. */
    method CrearReserva(cliente: Cliente, numero: int, entrada: int, salida: int)
      returns (r: Result<Reserva, Rechazo>)
      requires Valid()
      modifies this
      ensures Valid()
      ensures habitaciones == old(habitaciones) && nombre == old(nombre)
      ensures salida <= entrada ==> r == Err(FechasInvalidas)
      ensures salida > entrada && PrimeraHabitacion(habitaciones, numero).None? ==>
                r == Err(HabitacionInexistente)
      ensures salida > entrada && PrimeraHabitacion(habitaciones, numero).Some? ==>
                var propuesta := Reserva(cliente, PrimeraHabitacion(habitaciones, numero).value, entrada, salida);
                if Libre(old(reservas), propuesta) then r == Ok(propuesta) else r == Err(NoDisponible)
      ensures r.Err? ==> reservas == old(reservas)
      ensures r.Ok? ==> reservas == old(reservas) + [r.value] && r.value.Noches() > 0
    {
      if salida <= entrada {
        return Err(FechasInvalidas);
      }
      var encontrada := PrimeraHabitacion(habitaciones, numero);
      if encontrada.None? {
        return Err(HabitacionInexistente);
      }
      var habitacion := encontrada.value;
      var disponible := EstaDisponible(habitacion, entrada, salida);
      var propuesta := Reserva(cliente, habitacion, entrada, salida);
      // The availability check used a placeholder client; overlap ignores the client.
      assert disponible <==> Libre(reservas, propuesta);
      if !disponible {
        return Err(NoDisponible);
      }
      AgregarLibre(reservas, propuesta);
      reservas := reservas + [propuesta];
      r := Ok(propuesta);
    }
  }
}
