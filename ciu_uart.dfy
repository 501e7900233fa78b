/** The UART of the CIU secure element as a device object: the handlers
    update the receive and status registers in place, and every byte sent
    to the character backend is appended to `output`. Every method is
    proved to take the registers from their old values to the ones the
    matching function of CiuUartSpec gives. */
module CiuUart {
  import opened CiuUartSpec

  class Uart {
    var regRx: bv32
    var regSr: bv32
    /** The bytes handed to the character backend so far. */
    ghost var output: seq<bv8>

    /** A new device object: QEMU zero-fills the instance. */
    constructor ()
      ensures UartState(regRx, regSr) == CiuUartSpec.Reset() && output == []
    {
      regRx, regSr := 0, 0;
      output := [];
    }

    /** ciu_uart_reset */
    method Reset()
      modifies this`regRx, this`regSr
      ensures UartState(regRx, regSr) == CiuUartSpec.Reset()
    {
      regRx := 0;
      regSr := 0;
    }

    /** ciu_uart_read */
    method Read(addr: nat) returns (v: bv32)
      modifies this`regSr
      ensures v == CiuUartSpec.Read(UartState(old(regRx), old(regSr)), addr).value
      ensures UartState(regRx, regSr) == CiuUartSpec.Read(UartState(old(regRx), old(regSr)), addr).next
    {
      v := 0;
      if addr == REG_RX {
        regSr := regSr & !RXINT;
        v := regRx;
      } else if addr == REG_SR {
        v := regSr;
      }
    }

    /** ciu_uart_write. TXINT drops while the byte goes out to the backend
        and is set again once it has been taken; the transmit blocks until
        then, so it is one step here. */
    method Write(addr: nat, value: bv32)
      modifies this`regSr, this`output
      ensures UartState(regRx, regSr) == CiuUartSpec.Write(UartState(old(regRx), old(regSr)), addr, value).next
      ensures output == old(output) + CiuUartSpec.Write(UartState(old(regRx), old(regSr)), addr, value).sent
    {
      var ch := LowByte(value);
      if addr == REG_TX {
        regSr := regSr & !TXINT;
        output := output + [ch];
        regSr := regSr | TXINT;
      } else if addr == REG_SR {
        if ch & 4 == 0 {
          regSr := regSr & !TXINT;
        }
      }
    }

    /** uart_can_rx */
    method CanRx() returns (n: nat)
      ensures n == CiuUartSpec.CanRx(UartState(regRx, regSr))
      ensures n <= 1 && (n == 1 <==> !RxPending(UartState(regRx, regSr)))
    {
      n := if regSr & RXINT == 0 then 1 else 0;
    }

    /** uart_rx with the first byte the backend delivers. */
    method Rx(b: bv8)
      requires CiuUartSpec.CanRx(UartState(regRx, regSr)) == 1
      modifies this`regRx, this`regSr
      ensures UartState(regRx, regSr) == CiuUartSpec.Rx(UartState(old(regRx), old(regSr)), b)
    {
      regSr := regSr | RXINT;
      regRx := b as bv32;
    }
  }
}
