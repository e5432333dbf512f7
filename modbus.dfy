/** The serial Modbus instrument as the register engine sees it: an abstract
    device that answers read requests from its current register image, and
    a log of every request sent to it. */
module Modbus {
  import opened Registers

  /** One transport call. Addresses are wire (0-based) addresses. */
  datatype Request =
    | ReadBlock(address: int, count: nat, functionCode: int)
    | ReadOne(address: int, decimals: nat, functionCode: int)
    | WriteOne(address: int, value: int, decimals: nat, functionCode: int)

  /** The words a block read of `count` registers from `address` returns. */
  function Block(image: (int, int) -> Word, functionCode: int, address: int, count: nat): (words: seq<Word>)
    ensures |words| == count
    ensures forall i :: 0 <= i < count ==> words[i] == image(functionCode, address + i)
  {
    if count == 0 then [] else Block(image, functionCode, address, count - 1) + [image(functionCode, address + count - 1)]
  }

  class Instrument {
    /** The device's registers: (function code, wire address) to raw word. */
    var image: (int, int) -> Word
    /** The library's own signed decoding of a single register read:
        (wire address, function code, decimals) to value. */
    var decoded: (int, int, nat) -> Number
    /** Every request issued, oldest first. */
    var requests: seq<Request>

    constructor (image: (int, int) -> Word, decoded: (int, int, nat) -> Number)
      ensures this.image == image && this.decoded == decoded && requests == []
    {
      this.image := image;
      this.decoded := decoded;
      requests := [];
    }

    /** `read_registers(address, count, functioncode)`. */
    method ReadRegisters(address: int, count: nat, functionCode: int) returns (words: seq<Word>)
      modifies this`requests
      ensures words == Block(image, functionCode, address, count)
      ensures requests == old(requests) + [ReadBlock(address, count, functionCode)]
    {
      words := Block(image, functionCode, address, count);
      requests := requests + [ReadBlock(address, count, functionCode)];
    }

    /** `read_register(address, decimals, functioncode=functionCode, signed=True)`. */
    method ReadRegister(address: int, decimals: nat, functionCode: int) returns (value: Number)
      modifies this`requests
      ensures value == decoded(address, functionCode, decimals)
      ensures requests == old(requests) + [ReadOne(address, decimals, functionCode)]
    {
      value := decoded(address, functionCode, decimals);
      requests := requests + [ReadOne(address, decimals, functionCode)];
    }

    /** `write_register(address, value, number_of_decimals=decimals, functioncode=functionCode, signed=True)`. */
    method WriteRegister(address: int, value: int, decimals: nat, functionCode: int)
      modifies this`requests
      ensures requests == old(requests) + [WriteOne(address, value, decimals, functionCode)]
    {
      requests := requests + [WriteOne(address, value, decimals, functionCode)];
    }
  }
}
