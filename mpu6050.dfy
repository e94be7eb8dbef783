// The MPU-6050 accelerometer/gyroscope driver, in its two copies:
// stm32lib/mpu6050.c over the hardware I2C library and
// examples/sw4stm32/swi2ctest/mpu6050.c over a bit-banged I2C. Both run the
// same register sequence; they differ only in how a transport status is
// judged a success. The transport is a bus object standing for the I2C
// calls: it holds the device's register file, the status a probe and a
// register write report, and the record of every transfer made.

module Mpu6050 {
  import opened Ints

  /** The base I2C address and the WHO_AM_I answer of an MPU-6050. */
  const I2C_ADDR: bv8 := 0xD0
  const I_AM: bv8 := 0x68

  // Registers
  const SMPLRT_DIV: Uint8 := 0x19
  const GYRO_CONFIG: Uint8 := 0x1B
  const ACCEL_CONFIG: Uint8 := 0x1C
  const ACCEL_XOUT_H: Uint8 := 0x3B
  const TEMP_OUT_H: Uint8 := 0x41
  const GYRO_XOUT_H: Uint8 := 0x43
  const PWR_MGMT_1: Uint8 := 0x6B
  const WHO_AM_I: Uint8 := 0x75

  /** MPU6050_RATE_1KHZ: the sample-rate divider init programs. */
  const RATE_1KHZ: bv8 := 7

  /** MPU6050_Dev_t: the level of the AD0 pin selects one of two addresses. */
  datatype Dev = Dev0 | Dev1

  /** MPU6050_Res_t */
  datatype Res = Ok | Err | NotConnect | Invalid

  /** MPU6050_Acc_t / MPU6050_Gyro_t: the 2-bit full-scale range code. */
  type Range = r: bv8 | r <= 3

  /** The two transports: the I2C library reports failure as a negative int, the software I2C as a nonzero result code. */
  datatype Transport = HardI2c | SoftI2c

  /** Whether a status the transport returned counts as success for the driver. */
  predicate Succeeded(t: Transport, status: int)
  {
    match t
    case HardI2c => status >= 0
    case SoftI2c => status == 0
  }

  /** One transfer on the bus. */
  datatype Xfer =
    | Probe(addr: bv8)
    | ReadReg(addr: bv8, reg: Uint8)
    | WriteReg(addr: bv8, reg: Uint8, value: bv8)
    | ReadBurst(addr: bv8, reg: Uint8, count: nat)

  function DevBits(dev: Dev): bv8
  {
    match dev
    case Dev0 => 0x00
    case Dev1 => 0x02
  }

  /** The device address init stores: the base address ORed with the AD0 code. */
  function Address(dev: Dev): (a: bv8)
    ensures a == 0xD0 || a == 0xD2
    ensures (a == 0xD2) <==> dev == Dev1
  {
    I2C_ADDR | DevBits(dev)
  }

  /** The configuration byte setacc / setgyro write back: bits 3-4 replaced by the range code. */
  function ConfigValue(current: bv8, code: Range): bv8
  {
    (current & 0xE7) | (code << 3)
  }

  /** The range code lands in bits 3-4 and every other bit of the register is kept. */
  lemma ConfigField(current: bv8, code: Range)
    ensures (ConfigValue(current, code) >> 3) & 3 == code
    ensures ConfigValue(current, code) & 0xE7 == current & 0xE7
  {
  }

  /** Writing the same range twice leaves the register as after the first write. */
  lemma ConfigIdempotent(current: bv8, code: Range)
    ensures ConfigValue(ConfigValue(current, code), code) == ConfigValue(current, code)
  {
  }

  /** `hi << 8 | lo`: the 16-bit pattern of a big-endian byte pair. */
  function Join(hi: bv8, lo: bv8): bv16
  {
    ((hi as bv16) << 8) | (lo as bv16)
  }

  /** The int16_t value of a 16-bit pattern (two's complement). */
  function Signed(w: bv16): (r: int)
    ensures IsI16(r)
  {
    if w < 0x8000 then w as int else w as int - 0x10000
  }

  /** One axis sample: (int16_t)(hi << 8 | lo). */
  function Sample(hi: bv8, lo: bv8): int
  {
    Signed(Join(hi, lo))
  }

  /** The byte pair is recovered from the pattern: high byte first, then low. */
  lemma JoinSplits(hi: bv8, lo: bv8)
    ensures ((Join(hi, lo) >> 8) & 0xFF) as bv8 == hi
    ensures (Join(hi, lo) & 0xFF) as bv8 == lo
  {
  }

  /** Every 16-bit pattern is the join of its high and low bytes. */
  lemma SplitJoins(w: bv16)
    ensures Join(((w >> 8) & 0xFF) as bv8, (w & 0xFF) as bv8) == w
  {
  }

  /** A sample is negative exactly when the sign bit of the high byte is set. */
  lemma SampleSign(hi: bv8, lo: bv8)
    ensures Sample(hi, lo) < 0 <==> hi >= 0x80
  {
  }

  /** The I2C transport with the device behind it. */
  class Bus {
    const kind: Transport
    /** What a probe of the device reports. */
    const probeStatus: int
    /** What a register write reports. */
    const writeStatus: int
    /** The device's registers. */
    var regs: seq<bv8>
    /** Every transfer, in order. */
    var log: seq<Xfer>

    ghost predicate Valid()
      reads this
    {
      |regs| == 0x100
    }

    constructor(kind: Transport, probeStatus: int, writeStatus: int, regs: seq<bv8>)
      requires |regs| == 0x100
      ensures Valid()
      ensures this.kind == kind && this.probeStatus == probeStatus && this.writeStatus == writeStatus
      ensures this.regs == regs && log == []
    {
      this.kind, this.probeStatus, this.writeStatus := kind, probeStatus, writeStatus;
      this.regs, log := regs, [];
    }

    /** i2c_ready / swi2c_ready. */
    method Ready(addr: bv8) returns (status: int)
      modifies this`log
      ensures status == probeStatus && log == old(log) + [Probe(addr)]
    {
      status := probeStatus;
      log := log + [Probe(addr)];
    }

    /** i2c_read / swi2c_read of one register. */
    method Read(addr: bv8, reg: Uint8) returns (value: bv8)
      requires Valid()
      modifies this`log
      ensures value == regs[reg] && log == old(log) + [ReadReg(addr, reg)]
    {
      value := regs[reg];
      log := log + [ReadReg(addr, reg)];
    }

    /** i2c_nread / swi2c_readmulti: consecutive registers from reg on. */
    method ReadMany(addr: bv8, reg: Uint8, count: nat) returns (data: seq<bv8>)
      requires Valid() && reg + count <= 0x100
      modifies this`log
      ensures data == regs[reg..reg + count] && log == old(log) + [ReadBurst(addr, reg, count)]
    {
      data := regs[reg..reg + count];
      log := log + [ReadBurst(addr, reg, count)];
    }

    /** i2c_write / swi2c_write: a successful write changes the register, a failed one nothing. */
    method Write(addr: bv8, reg: Uint8, value: bv8) returns (status: int)
      requires Valid()
      modifies this`regs, this`log
      ensures Valid() && status == writeStatus
      ensures regs == if Succeeded(kind, writeStatus) then old(regs)[reg := value] else old(regs)
      ensures log == old(log) + [WriteReg(addr, reg, value)]
    {
      status := writeStatus;
      if Succeeded(kind, writeStatus) {
        regs := regs[reg := value];
      }
      log := log + [WriteReg(addr, reg, value)];
    }
  }

  /** The register transfers of a successful init after the probe and WHO_AM_I read. */
  function ConfigureLog(addr: bv8, accel: bv8, gyro: bv8, acc: Range, gy: Range): seq<Xfer>
  {
    [ WriteReg(addr, PWR_MGMT_1, 0x00), WriteReg(addr, SMPLRT_DIV, RATE_1KHZ),
      ReadReg(addr, ACCEL_CONFIG), WriteReg(addr, ACCEL_CONFIG, ConfigValue(accel, acc)),
      ReadReg(addr, GYRO_CONFIG), WriteReg(addr, GYRO_CONFIG, ConfigValue(gyro, gy)) ]
  }

  /**
   * The registers after a successful init's writes: the device awake,
   * the 1 kHz rate divider, and both range fields replaced.
   */
  function Configured(regs: seq<bv8>, acc: Range, gyro: Range): (r: seq<bv8>)
    requires |regs| == 0x100
    ensures |r| == 0x100
    ensures r[PWR_MGMT_1] == 0 && r[SMPLRT_DIV] == RATE_1KHZ
    ensures r[ACCEL_CONFIG] == ConfigValue(regs[ACCEL_CONFIG], acc)
    ensures r[GYRO_CONFIG] == ConfigValue(regs[GYRO_CONFIG], gyro)
    ensures forall k :: 0 <= k < 0x100 ==>
              (k != PWR_MGMT_1 && k != SMPLRT_DIV && k != ACCEL_CONFIG && k != GYRO_CONFIG ==> r[k] == regs[k])
  {
    regs[PWR_MGMT_1 := 0][SMPLRT_DIV := RATE_1KHZ]
      [ACCEL_CONFIG := ConfigValue(regs[ACCEL_CONFIG], acc)]
      [GYRO_CONFIG := ConfigValue(regs[GYRO_CONFIG], gyro)]
  }

  /** MPU6050_t without the floating-point fields. */
  class Sensor {
    var address: bv8
    var accX: int
    var accY: int
    var accZ: int
    var gyroX: int
    var gyroY: int
    var gyroZ: int
    /** The raw int16 reading the temperature is computed from. */
    var tempRaw: int

    constructor()
      ensures address == 0
      ensures accX == 0 && accY == 0 && accZ == 0 && gyroX == 0 && gyroY == 0 && gyroZ == 0 && tempRaw == 0
    {
      address := 0;
      accX, accY, accZ, gyroX, gyroY, gyroZ, tempRaw := 0, 0, 0, 0, 0, 0, 0;
    }

    /**
     * mpu6050_init: store the address; give up before any register access
     * when the probe fails; read WHO_AM_I and give up if it is not 0x68;
     * otherwise wake the device and program rate, accelerometer and gyro.
     */
    method Init(bus: Bus, dev: Dev, acc: Range, gyro: Range) returns (r: Res)
      requires bus.Valid()
      modifies this`address, bus`regs, bus`log
      ensures bus.Valid() && address == Address(dev)
      ensures !Succeeded(bus.kind, bus.probeStatus) ==>
        r == NotConnect && bus.log == old(bus.log) + [Probe(address)] && bus.regs == old(bus.regs)
      ensures Succeeded(bus.kind, bus.probeStatus) && old(bus.regs)[WHO_AM_I] != I_AM ==>
        r == Invalid && bus.log == old(bus.log) + [Probe(address), ReadReg(address, WHO_AM_I)]
        && bus.regs == old(bus.regs)
      ensures Succeeded(bus.kind, bus.probeStatus) && old(bus.regs)[WHO_AM_I] == I_AM ==>
        r == Ok && bus.log == old(bus.log) + [Probe(address), ReadReg(address, WHO_AM_I)]
          + ConfigureLog(address, old(bus.regs)[ACCEL_CONFIG], old(bus.regs)[GYRO_CONFIG], acc, gyro)
      ensures Succeeded(bus.kind, bus.probeStatus) && old(bus.regs)[WHO_AM_I] == I_AM ==>
        bus.regs == if Succeeded(bus.kind, bus.writeStatus) then Configured(old(bus.regs), acc, gyro) else old(bus.regs)
    {
      address := I2C_ADDR | DevBits(dev);
      var status := bus.Ready(address);
      if !Succeeded(bus.kind, status) {
        return NotConnect;
      }
      var id := bus.Read(address, WHO_AM_I);
      if id != I_AM {
        return Invalid;
      }
      Configure(bus, acc, gyro);
      r := Ok;
    }

    /**
     * The writes of a successful init: wake-up, sample rate, then the
     * accelerometer and gyro ranges read back and replaced.
     */
    method Configure(bus: Bus, acc: Range, gyro: Range)
      requires bus.Valid()
      modifies bus`regs, bus`log
      ensures bus.Valid()
      ensures bus.log == old(bus.log) + ConfigureLog(address, old(bus.regs)[ACCEL_CONFIG], old(bus.regs)[GYRO_CONFIG], acc, gyro)
      ensures bus.regs == if Succeeded(bus.kind, bus.writeStatus) then Configured(old(bus.regs), acc, gyro) else old(bus.regs)
    {
      ghost var regs0, log0 := bus.regs, bus.log;
      var _ := bus.Write(address, PWR_MGMT_1, 0x00);
      var _ := SetRate(bus, RATE_1KHZ);
      ghost var woken := bus.regs;
      assert woken[ACCEL_CONFIG] == regs0[ACCEL_CONFIG] && woken[GYRO_CONFIG] == regs0[GYRO_CONFIG];
      var _ := SetAcc(bus, acc);
      assert bus.regs[GYRO_CONFIG] == regs0[GYRO_CONFIG];
      var _ := SetGyro(bus, gyro);
      assert bus.log == log0 + ConfigureLog(address, regs0[ACCEL_CONFIG], regs0[GYRO_CONFIG], acc, gyro);
    }

    /** mpu6050_setacc: read ACCEL_CONFIG, replace its range bits, write it back. */
    method SetAcc(bus: Bus, acc: Range) returns (r: Res)
      requires bus.Valid()
      modifies bus`regs, bus`log
      ensures bus.Valid() && r == Ok
      ensures bus.log == old(bus.log)
        + [ReadReg(address, ACCEL_CONFIG), WriteReg(address, ACCEL_CONFIG, ConfigValue(old(bus.regs)[ACCEL_CONFIG], acc))]
      ensures bus.regs == if Succeeded(bus.kind, bus.writeStatus)
        then old(bus.regs)[ACCEL_CONFIG := ConfigValue(old(bus.regs)[ACCEL_CONFIG], acc)] else old(bus.regs)
    {
      var current := bus.Read(address, ACCEL_CONFIG);
      var _ := bus.Write(address, ACCEL_CONFIG, (current & 0xE7) | (acc << 3));
      r := Ok;
    }

    /** mpu6050_setgyro: read GYRO_CONFIG, replace its range bits, write it back. */
    method SetGyro(bus: Bus, gyro: Range) returns (r: Res)
      requires bus.Valid()
      modifies bus`regs, bus`log
      ensures bus.Valid() && r == Ok
      ensures bus.log == old(bus.log)
        + [ReadReg(address, GYRO_CONFIG), WriteReg(address, GYRO_CONFIG, ConfigValue(old(bus.regs)[GYRO_CONFIG], gyro))]
      ensures bus.regs == if Succeeded(bus.kind, bus.writeStatus)
        then old(bus.regs)[GYRO_CONFIG := ConfigValue(old(bus.regs)[GYRO_CONFIG], gyro)] else old(bus.regs)
    {
      var current := bus.Read(address, GYRO_CONFIG);
      var _ := bus.Write(address, GYRO_CONFIG, (current & 0xE7) | (gyro << 3));
      r := Ok;
    }

    /** mpu6050_setrate: Err exactly when the transport reports the write failed. */
    method SetRate(bus: Bus, rate: bv8) returns (r: Res)
      requires bus.Valid()
      modifies bus`regs, bus`log
      ensures bus.Valid()
      ensures r == if Succeeded(bus.kind, bus.writeStatus) then Ok else Err
      ensures bus.log == old(bus.log) + [WriteReg(address, SMPLRT_DIV, rate)]
      ensures bus.regs == if r == Ok then old(bus.regs)[SMPLRT_DIV := rate] else old(bus.regs)
    {
      var status := bus.Write(address, SMPLRT_DIV, rate);
      if !Succeeded(bus.kind, status) {
        return Err;
      }
      r := Ok;
    }

    /** mpu6050_readacc: three big-endian samples from ACCEL_XOUT_H on. */
    method ReadAcc(bus: Bus) returns (r: Res)
      requires bus.Valid()
      modifies this`accX, this`accY, this`accZ, bus`log
      ensures r == Ok && bus.log == old(bus.log) + [ReadBurst(address, ACCEL_XOUT_H, 6)]
      ensures accX == Sample(bus.regs[0x3B], bus.regs[0x3C])
      ensures accY == Sample(bus.regs[0x3D], bus.regs[0x3E])
      ensures accZ == Sample(bus.regs[0x3F], bus.regs[0x40])
    {
      var data := bus.ReadMany(address, ACCEL_XOUT_H, 6);
      accX := Signed(Join(data[0], data[1]));
      accY := Signed(Join(data[2], data[3]));
      accZ := Signed(Join(data[4], data[5]));
      r := Ok;
    }

    /** mpu6050_readgyro: three big-endian samples from GYRO_XOUT_H on. */
    method ReadGyro(bus: Bus) returns (r: Res)
      requires bus.Valid()
      modifies this`gyroX, this`gyroY, this`gyroZ, bus`log
      ensures r == Ok && bus.log == old(bus.log) + [ReadBurst(address, GYRO_XOUT_H, 6)]
      ensures gyroX == Sample(bus.regs[0x43], bus.regs[0x44])
      ensures gyroY == Sample(bus.regs[0x45], bus.regs[0x46])
      ensures gyroZ == Sample(bus.regs[0x47], bus.regs[0x48])
    {
      var data := bus.ReadMany(address, GYRO_XOUT_H, 6);
      gyroX := Signed(Join(data[0], data[1]));
      gyroY := Signed(Join(data[2], data[3]));
      gyroZ := Signed(Join(data[4], data[5]));
      r := Ok;
    }

    /** mpu6050_readtemp: the raw temperature sample from TEMP_OUT_H. */
    method ReadTemp(bus: Bus) returns (r: Res)
      requires bus.Valid()
      modifies this`tempRaw, bus`log
      ensures r == Ok && bus.log == old(bus.log) + [ReadBurst(address, TEMP_OUT_H, 2)]
      ensures tempRaw == Sample(bus.regs[0x41], bus.regs[0x42])
    {
      var data := bus.ReadMany(address, TEMP_OUT_H, 2);
      tempRaw := Signed(Join(data[0], data[1]));
      r := Ok;
    }

    /**
     * mpu6050_readall: one 14-byte burst from ACCEL_XOUT_H; bytes 0-5 are the
     * accelerometer, 6-7 the temperature and 8-13 the gyroscope, the same
     * registers readacc, readtemp and readgyro read one group at a time.
     */
    method ReadAll(bus: Bus) returns (r: Res)
      requires bus.Valid()
      modifies this`accX, this`accY, this`accZ, this`gyroX, this`gyroY, this`gyroZ, this`tempRaw, bus`log
      ensures r == Ok && bus.log == old(bus.log) + [ReadBurst(address, ACCEL_XOUT_H, 14)]
      ensures accX == Sample(bus.regs[0x3B], bus.regs[0x3C])
      ensures accY == Sample(bus.regs[0x3D], bus.regs[0x3E])
      ensures accZ == Sample(bus.regs[0x3F], bus.regs[0x40])
      ensures tempRaw == Sample(bus.regs[0x41], bus.regs[0x42])
      ensures gyroX == Sample(bus.regs[0x43], bus.regs[0x44])
      ensures gyroY == Sample(bus.regs[0x45], bus.regs[0x46])
      ensures gyroZ == Sample(bus.regs[0x47], bus.regs[0x48])
    {
      var data := bus.ReadMany(address, ACCEL_XOUT_H, 14);
      accX := Signed(Join(data[0], data[1]));
      accY := Signed(Join(data[2], data[3]));
      accZ := Signed(Join(data[4], data[5]));
      tempRaw := Signed(Join(data[6], data[7]));
      gyroX := Signed(Join(data[8], data[9]));
      gyroY := Signed(Join(data[10], data[11]));
      gyroZ := Signed(Join(data[12], data[13]));
      r := Ok;
    }
  }
}
