/** The encapsulation exercise: a bank account whose private balance changes only through
    guarded deposits and withdrawals. Amounts are `real`; the console messages become the
    boolean each operation returns (true when Python prints the success message). */
module CuentaBancaria {

  class Cuenta {
    var titular: string
    var saldo: real

    /** The balance is never negative. */
    ghost predicate Valid()
      reads this
    {
      saldo >= 0.0
    }

    /** A new account starts with a zero balance. */
    constructor (titular: string)
      ensures Valid()
      ensures this.titular == titular && saldo == 0.0
    {
      this.titular := titular;
      saldo := 0.0;
    }

    /** `depositar`: a non-positive amount is refused; otherwise the balance grows by it. */
    method Depositar(monto: real) returns (aceptado: bool)
      requires Valid()
      modifies this
      ensures Valid()
      ensures aceptado <==> monto > 0.0
      ensures saldo == if aceptado then old(saldo) + monto else old(saldo)
      ensures titular == old(titular)
    {
      if monto <= 0.0 {
        return false;
      }
      saldo := saldo + monto;
      aceptado := true;
    }

    /** `retirar`: a non-positive amount, or one above the balance, is refused; otherwise
        the balance shrinks by it. */
    method Retirar(monto: real) returns (aceptado: bool)
      requires Valid()
      modifies this
      ensures Valid()
      ensures aceptado <==> 0.0 < monto <= old(saldo)
      ensures saldo == if aceptado then old(saldo) - monto else old(saldo)
      ensures titular == old(titular)
    {
      if monto <= 0.0 {
        return false;
      }
      if monto > saldo {
        return false;
      }
      saldo := saldo - monto;
      aceptado := true;
    }

    /** `mostrar_saldo`: reads the balance, changes nothing. */
    method MostrarSaldo() returns (s: real)
      requires Valid()
      ensures s == saldo && s >= 0.0
    {
      s := saldo;
    }
  }
}
