// The USB CDC virtual COM port bridge of the STM32F446 example
// (examples/cubemx/usbcdc_f446_cubemx/Src/usbd_cdc_if.c): a USB-to-UART
// bridge with one ring buffer per direction. Bytes from the UART land in the
// Tx ring and a periodic timer drains it to the USB host; USB packets are
// parked in a 64-byte buffer and the timer copies them into the Rx ring and
// hands them to the UART. The line coding the host sets (bit rate, stop bits,
// parity, data bits, section 6.3.10 of the USB CDC PSTN subclass 1.2) is
// kept as seven bytes and mapped onto the UART's configuration.
//
// The USB device stack, the HAL's UART and timer drivers and their
// interrupts are outside the model: their answers are parameters and what
// they were handed is recorded in two logs.

module UsbCdc {
  /** APP_RX_DATA_SIZE and APP_TX_DATA_SIZE: both rings hold 2048 bytes. */
  const SIZE: nat := 2048
  /** USBBuffer: the parking buffer for one full-speed bulk packet. */
  const PACKET: nat := 64

  /** The class-specific requests of section 6.3 of the USB CDC PSTN subclass 1.2. */
  const SET_LINE_CODING: bv8 := 0x20
  const GET_LINE_CODING: bv8 := 0x21

  /** USBD_CDC_LineCodingTypeDef */
  datatype LineCoding = LineCoding(bitrate: bv32, format: bv8, paritytype: bv8, dataBits: bv8)

  /** The coding the port starts with: 115200 baud, one stop bit, no parity, 8 data bits. */
  const DEFAULT_CODING := LineCoding(115200, 0, 0, 8)

  datatype StopBits = OneStop | TwoStop
  datatype Parity = NoParity | Odd | Even
  datatype WordLength = Word8 | Word9

  /** The fields of huart2.Init that ComPort_Config sets from the line coding. */
  datatype UartConfig = UartConfig(baudRate: bv32, stopBits: StopBits, parity: Parity, wordLength: WordLength)

  /** The status of a USB device stack call. */
  datatype UsbStatus = UsbOk | UsbBusy | UsbFail

  /** dwDTERate is sent least significant byte first. */
  function BitrateOf(b0: bv8, b1: bv8, b2: bv8, b3: bv8): bv32
  {
    (b0 as bv32) | ((b1 as bv32) << 8) | ((b2 as bv32) << 16) | ((b3 as bv32) << 24)
  }

  function ByteOf(w: bv32, shift: bv32): bv8
    requires shift <= 24
  {
    ((w >> shift) & 0xFF) as bv8
  }

  /** The four bytes of a bit rate, least significant first. */
  function BitrateBytes(w: bv32): (r: seq<bv8>)
    ensures |r| == 4
  {
    [ByteOf(w, 0), ByteOf(w, 8), ByteOf(w, 16), ByteOf(w, 24)]
  }

  /** The SET_LINE_CODING payload as the interface stores it. */
  function DecodeLineCoding(p: seq<bv8>): LineCoding
    requires |p| >= 7
  {
    LineCoding(BitrateOf(p[0], p[1], p[2], p[3]), p[4], p[5], p[6])
  }

  /** The GET_LINE_CODING reply. */
  function EncodeLineCoding(c: LineCoding): (r: seq<bv8>)
    ensures |r| == 7
    ensures r[4] == c.format && r[5] == c.paritytype && r[6] == c.dataBits
  {
    BitrateBytes(c.bitrate) + [c.format, c.paritytype, c.dataBits]
  }

  lemma BytesOfBitrate(b0: bv8, b1: bv8, b2: bv8, b3: bv8)
    ensures ByteOf(BitrateOf(b0, b1, b2, b3), 0) == b0
    ensures ByteOf(BitrateOf(b0, b1, b2, b3), 8) == b1
    ensures ByteOf(BitrateOf(b0, b1, b2, b3), 16) == b2
    ensures ByteOf(BitrateOf(b0, b1, b2, b3), 24) == b3
  {
  }

  lemma BitrateOfBytes(w: bv32)
    ensures BitrateOf(ByteOf(w, 0), ByteOf(w, 8), ByteOf(w, 16), ByteOf(w, 24)) == w
  {
  }

  /** GET_LINE_CODING after SET_LINE_CODING returns the seven bytes the host sent. */
  lemma {:induction false} EncodeDecode(p: seq<bv8>)
    requires |p| == 7
    ensures EncodeLineCoding(DecodeLineCoding(p)) == p
  {
    BytesOfBitrate(p[0], p[1], p[2], p[3]);
  }

  /** Storing a reply the interface produced gives back the coding it was produced from. */
  lemma {:induction false} DecodeEncode(c: LineCoding)
    ensures DecodeLineCoding(EncodeLineCoding(c)) == c
  {
    BitrateOfBytes(c.bitrate);
  }

  /** bCharFormat: 2 selects two stop bits; 0, and every value the UART cannot do, one. */
  function StopBitsOf(format: bv8): (r: StopBits)
    ensures r == TwoStop <==> format == 2
  {
    match format
    case 0 => OneStop
    case 2 => TwoStop
    case _ => OneStop
  }

  /** bParityType: 1 odd, 2 even; none for 0 and for mark and space, which the UART lacks. */
  function ParityOf(paritytype: bv8): (r: Parity)
    ensures r == Odd <==> paritytype == 1
    ensures r == Even <==> paritytype == 2
    ensures r == NoParity <==> paritytype != 1 && paritytype != 2
  {
    match paritytype
    case 0 => NoParity
    case 1 => Odd
    case 2 => Even
    case _ => NoParity
  }

  /**
   * bDataBits: the UART's word includes the parity bit, so 8 data bits with
   * parity need a 9-bit word; 7 data bits (which need parity) and everything
   * else use an 8-bit word.
   */
  function WordLengthOf(dataBits: bv8, parity: Parity): (r: WordLength)
    ensures r == Word9 <==> dataBits == 8 && parity != NoParity
  {
    match dataBits
    case 7 => Word8
    case 8 => if parity == NoParity then Word8 else Word9
    case _ => Word8
  }

  /** ComPort_Config: the UART configuration a line coding selects. */
  function ComPortConfig(c: LineCoding): (u: UartConfig)
    ensures u.baudRate == c.bitrate
    ensures u.stopBits == StopBitsOf(c.format) && u.parity == ParityOf(c.paritytype)
    ensures u.wordLength == WordLengthOf(c.dataBits, u.parity)
  {
    var parity := ParityOf(c.paritytype);
    UartConfig(c.bitrate, StopBitsOf(c.format), parity, WordLengthOf(c.dataBits, parity))
  }

  /** The UART the port starts with runs 115200 baud, 8N1. */
  lemma DefaultConfig()
    ensures ComPortConfig(DEFAULT_CODING) == UartConfig(115200, OneStop, NoParity, Word8)
  {
  }

  /**
   * The length of the next Tx chunk: up to the write index, or, when the
   * data wraps, up to the end of the ring. A chunk never crosses the end.
   */
  function ChunkSize(outIndex: nat, inIndex: nat): (r: nat)
    requires outIndex < SIZE && inIndex < SIZE && outIndex != inIndex
    ensures 0 < r && outIndex + r <= SIZE
    ensures outIndex < inIndex ==> outIndex + r == inIndex
    ensures outIndex > inIndex ==> outIndex + r == SIZE
  {
    if outIndex > inIndex then SIZE - outIndex else inIndex - outIndex
  }

  /** The read index after a chunk went out. */
  function Advanced(outIndex: nat, inIndex: nat): (r: nat)
    requires outIndex < SIZE && inIndex < SIZE && outIndex != inIndex
    ensures r == (outIndex + ChunkSize(outIndex, inIndex)) % SIZE
  {
    var next := outIndex + ChunkSize(outIndex, inIndex);
    if next == SIZE then 0 else next
  }

  /** At most two chunks empty the Tx ring: the one up to the end, then the one from 0. */
  lemma {:induction false} TwoChunksDrain(outIndex: nat, inIndex: nat)
    requires outIndex < SIZE && inIndex < SIZE && outIndex != inIndex
    ensures var o := Advanced(outIndex, inIndex);
      o == inIndex || (o == 0 && Advanced(0, inIndex) == inIndex)
  {
    if outIndex > inIndex && inIndex != 0 {
      assert Advanced(outIndex, inIndex) == 0;
    }
  }

  /**
   * The ring `ring` with `data` written from `at` on, wrapping at the end:
   * data byte k lands at (at + k) % SIZE and every other byte is kept.
   */
  function Placed(ring: seq<bv8>, at: nat, data: seq<bv8>): (r: seq<bv8>)
    requires |ring| == SIZE && at < SIZE && |data| <= SIZE
    ensures |r| == SIZE
  {
    seq(SIZE, i requires 0 <= i < SIZE =>
      if (i - at) % SIZE < |data| then data[(i - at) % SIZE] else ring[i])
  }

  /** Data byte k lands k places after `at`, wrapping at the end of the ring. */
  lemma PlacedData(ring: seq<bv8>, at: nat, data: seq<bv8>, k: nat)
    requires |ring| == SIZE && at < SIZE && |data| <= SIZE && k < |data|
    ensures Placed(ring, at, data)[(at + k) % SIZE] == data[k]
  {
    var i := (at + k) % SIZE;
    assert (i - at) % SIZE == k;
  }

  /** Offsets past the data, which together with the data's cover the whole ring, keep their byte. */
  lemma PlacedKeeps(ring: seq<bv8>, at: nat, data: seq<bv8>, k: nat)
    requires |ring| == SIZE && at < SIZE && |data| <= k < SIZE
    ensures Placed(ring, at, data)[(at + k) % SIZE] == ring[(at + k) % SIZE]
  {
    var i := (at + k) % SIZE;
    assert (i - at) % SIZE == k;
  }

  /** The interface's globals and the peripherals' view of them. */
  class CdcPort {
    var coding: LineCoding
    /** The configuration last given to HAL_UART_Init. */
    var uart: UartConfig
    /** UserRxBufferFS: USB-to-UART ring. */
    const rxBuffer: array<bv8>
    /** UserTxBufferFS: UART-to-USB ring. */
    const txBuffer: array<bv8>
    /** USBBuffer: the last USB packet. */
    const usbBuffer: array<bv8>
    var txIn: nat
    var txOut: nat
    var rxIn: nat
    /** USB_received */
    var usbReceived: bool
    /** USBPackSize */
    var packSize: nat
    /** The chunks handed to CDC_Transmit_FS and accepted. */
    var usbSent: seq<seq<bv8>>
    /** The buffers handed to HAL_UART_Transmit_DMA. */
    var uartSent: seq<seq<bv8>>

    ghost predicate Valid()
      reads this
    {
      rxBuffer.Length == SIZE && txBuffer.Length == SIZE && usbBuffer.Length == PACKET
      && rxBuffer != txBuffer && rxBuffer != usbBuffer && txBuffer != usbBuffer
      && txIn < SIZE && txOut < SIZE && rxIn < SIZE && packSize <= PACKET
    }

    constructor()
      ensures Valid() && fresh(rxBuffer) && fresh(txBuffer) && fresh(usbBuffer)
      ensures coding == DEFAULT_CODING && txIn == 0 && txOut == 0 && rxIn == 0
      ensures !usbReceived && usbSent == [] && uartSent == []
    {
      coding := DEFAULT_CODING;
      uart := ComPortConfig(DEFAULT_CODING);
      rxBuffer := new bv8[SIZE];
      txBuffer := new bv8[SIZE];
      usbBuffer := new bv8[PACKET];
      txIn, txOut, rxIn := 0, 0, 0;
      usbReceived, packSize := false, 0;
      usbSent, uartSent := [], [];
    }

    /** CDC_Init_FS: configure the UART from the current line coding. */
    method Init()
      modifies this`uart
      ensures uart == ComPortConfig(coding)
    {
      uart := ComPortConfig(coding);
    }

    /**
     * CDC_Control_FS: SET_LINE_CODING stores the payload and reconfigures the
     * UART; GET_LINE_CODING writes the stored coding into the request buffer;
     * every other request is accepted and ignored.
     */
    method Control(cmd: bv8, pbuf: array<bv8>, length: nat) returns (r: UsbStatus)
      requires (cmd == SET_LINE_CODING || cmd == GET_LINE_CODING) ==> pbuf.Length >= 7
      modifies this`coding, this`uart, pbuf
      ensures r == UsbOk
      ensures cmd == SET_LINE_CODING ==>
        coding == DecodeLineCoding(old(pbuf[..])) && uart == ComPortConfig(coding) && pbuf[..] == old(pbuf[..])
      ensures cmd == GET_LINE_CODING ==>
        pbuf[..] == EncodeLineCoding(coding) + old(pbuf[7..]) && coding == old(coding) && uart == old(uart)
      ensures cmd != SET_LINE_CODING && cmd != GET_LINE_CODING ==>
        coding == old(coding) && uart == old(uart) && pbuf[..] == old(pbuf[..])
    {
      if cmd == SET_LINE_CODING {
        coding := DecodeLineCoding(pbuf[..]);
        uart := ComPortConfig(coding);
      } else if cmd == GET_LINE_CODING {
        var reply := EncodeLineCoding(coding);
        forall k | 0 <= k < 7 {
          pbuf[k] := reply[k];
        }
        assert pbuf[..] == reply + old(pbuf[7..]);
      }
      r := UsbOk;
    }

    /**
     * CDC_Receive_FS: park the packet for the timer. The 64-byte buffer is
     * copied into without a bound check, so a packet must fit in it.
     */
    method Receive(buf: seq<bv8>, len: nat) returns (r: UsbStatus)
      requires Valid() && len <= PACKET && len <= |buf|
      modifies usbBuffer, this`packSize, this`usbReceived
      ensures Valid() && r == UsbOk && usbReceived && packSize == len
      ensures usbBuffer[..] == buf[..len] + old(usbBuffer[len..])
    {
      packSize := len;
      forall k | 0 <= k < len {
        usbBuffer[k] := buf[k];
      }
      assert usbBuffer[..] == buf[..len] + old(usbBuffer[len..]);
      usbReceived := true;
      r := UsbOk;
    }

    /**
     * HAL_UART_RxCpltCallback: the byte the UART was armed to receive has been
     * stored at the write index; advance it, wrapping at the end of the ring.
     */
    method UartReceived(b: bv8)
      requires Valid()
      modifies txBuffer, this`txIn
      ensures Valid()
      ensures txBuffer[..] == old(txBuffer[..])[old(txIn) := b]
      ensures txIn == (old(txIn) + 1) % SIZE
    {
      txBuffer[txIn] := b;
      txIn := txIn + 1;
      if txIn == SIZE {
        txIn := 0;
      }
    }

    /**
     * The Tx half of HAL_TIM_PeriodElapsedCallback: offer the next chunk of
     * the Tx ring to CDC_Transmit_FS, whose answer is `status`, and move the
     * read index past it only when the USB stack took it.
     */
    method DrainTx(status: UsbStatus)
      requires Valid()
      modifies this`txOut, this`usbSent
      ensures Valid()
      ensures old(txOut) == txIn ==> txOut == old(txOut) && usbSent == old(usbSent)
      ensures old(txOut) != txIn && status == UsbOk ==>
        txOut == Advanced(old(txOut), txIn)
        && usbSent == old(usbSent) + [txBuffer[old(txOut)..old(txOut) + ChunkSize(old(txOut), txIn)]]
      ensures status != UsbOk ==> txOut == old(txOut) && usbSent == old(usbSent)
    {
      if txOut != txIn {
        var size := if txOut > txIn then SIZE - txOut else txIn - txOut;
        if status == UsbOk {
          usbSent := usbSent + [txBuffer[txOut..txOut + size]];
          txOut := txOut + size;
          if txOut == SIZE {
            txOut := 0;
          }
        }
      }
    }

    /**
     * The Rx half of HAL_TIM_PeriodElapsedCallback: copy a parked packet into
     * the Rx ring at the write index, in two pieces when it wraps, advance the
     * index modulo the ring size and hand the packet to the UART.
     */
    method DeliverRx()
      requires Valid()
      modifies rxBuffer, this`rxIn, this`usbReceived, this`uartSent
      ensures Valid() && !usbReceived
      ensures old(usbReceived) && packSize > 0 ==>
        rxBuffer[..] == Placed(old(rxBuffer[..]), old(rxIn), usbBuffer[..packSize])
        && rxIn == (old(rxIn) + packSize) % SIZE
        && uartSent == old(uartSent) + [usbBuffer[..packSize]]
      ensures !(old(usbReceived) && packSize > 0) ==>
        rxBuffer[..] == old(rxBuffer[..]) && rxIn == old(rxIn) && uartSent == old(uartSent)
    {
      if usbReceived {
        usbReceived := false;
        var room := SIZE - rxIn;
        if packSize > 0 {
          ghost var before := rxBuffer[..];
          if packSize > room {
            forall k | 0 <= k < room {
              rxBuffer[rxIn + k] := usbBuffer[k];
            }
            forall k | 0 <= k < packSize - room {
              rxBuffer[k] := usbBuffer[room + k];
            }
          } else {
            forall k | 0 <= k < packSize {
              rxBuffer[rxIn + k] := usbBuffer[k];
            }
          }
          assert rxBuffer[..] == Placed(before, rxIn, usbBuffer[..packSize]);
          rxIn := (rxIn + packSize) % SIZE;
          uartSent := uartSent + [usbBuffer[..packSize]];
        }
      }
    }

    /** HAL_TIM_PeriodElapsedCallback: the Tx drain, then the Rx delivery. */
    method PeriodElapsed(status: UsbStatus)
      requires Valid()
      modifies rxBuffer, this`txOut, this`usbSent, this`rxIn, this`usbReceived, this`uartSent
      ensures Valid() && !usbReceived
      ensures old(txOut) == txIn ==> txOut == old(txOut) && usbSent == old(usbSent)
      ensures old(txOut) != txIn && status == UsbOk ==>
        txOut == Advanced(old(txOut), txIn)
        && usbSent == old(usbSent) + [txBuffer[old(txOut)..old(txOut) + ChunkSize(old(txOut), txIn)]]
      ensures status != UsbOk ==> txOut == old(txOut) && usbSent == old(usbSent)
      ensures old(usbReceived) && packSize > 0 ==>
        rxBuffer[..] == Placed(old(rxBuffer[..]), old(rxIn), usbBuffer[..packSize])
        && rxIn == (old(rxIn) + packSize) % SIZE
        && uartSent == old(uartSent) + [usbBuffer[..packSize]]
      ensures !(old(usbReceived) && packSize > 0) ==>
        rxBuffer[..] == old(rxBuffer[..]) && rxIn == old(rxIn) && uartSent == old(uartSent)
    {
      DrainTx(status);
      DeliverRx();
    }
  }
}
