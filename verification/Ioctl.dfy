/** I/O control codes: the packing done by `IoControlCode::new`, its accessors, and the offsets
    table `IoStackOffsets`. */
module Ioctl {
  import opened Bytes

  datatype TransferMethod = Buffered | InDirect | OutDirect | Neither {
    /** The `repr(u32)` discriminant. */
    function Bits(): bv32 {
      match this
      case Buffered => 0
      case InDirect => 1
      case OutDirect => 2
      case Neither => 3
    }
  }

  datatype RequiredAccess = Any | Read | Write | ReadWrite {
    /** The `repr(u32)` discriminant. */
    function Bits(): bv32 {
      match this
      case Any => 0
      case Read => 1
      case Write => 2
      case ReadWrite => 3
    }
  }

  function MethodOf(bits: bv32): TransferMethod {
    match bits & 3
    case 0 => Buffered
    case 1 => InDirect
    case 2 => OutDirect
    case _ => Neither
  }

  function AccessOf(bits: bv32): RequiredAccess {
    match bits & 3
    case 0 => Any
    case 1 => Read
    case 2 => Write
    case _ => ReadWrite
  }

  datatype IoControlCode = IoControlCode(raw: bv32) {
    function DeviceType(): bv16 {
      (raw >> 16) as bv16
    }

    function Function(): bv16 {
      ((raw >> 2) & 0x0FFF) as bv16
    }

    function Method(): TransferMethod {
      MethodOf(raw)
    }

    function Access(): RequiredAccess {
      AccessOf(raw >> 14)
    }
  }

  /** `IoControlCode::new`. The function number is a full `u16` that the code does not mask. */
  function New(deviceType: bv16, func: bv16, m: TransferMethod, access: RequiredAccess): IoControlCode {
    IoControlCode(((deviceType as bv32) << 16) | (access.Bits() << 14) | ((func as bv32) << 2) | m.Bits())
  }

  /** The bit-vector facts behind the accessors, stated on the packed word alone. */
  lemma PackedFields(dt: bv16, f: bv16, m: bv32, a: bv32)
    requires m <= 3 && a <= 3
    ensures var raw := ((dt as bv32) << 16) | (a << 14) | ((f as bv32) << 2) | m;
            && raw & 3 == m
            && ((raw >> 2) & 0x0FFF) as bv16 == f & 0x0FFF
            && (raw >> 14) & 3 == a | (((f >> 12) & 3) as bv32)
            && (raw >> 16) as bv16 == dt | (f >> 14)
  {
  }

  lemma UnpackedFields(raw: bv32)
    ensures ((((raw >> 16) as bv16) as bv32) << 16) | (((raw >> 14) & 3) << 14)
            | (((((raw >> 2) & 0x0FFF) as bv16) as bv32) << 2) | (raw & 3) == raw
    ensures ((raw >> 2) & 0x0FFF) as bv16 <= 0x0FFF
  {
  }

  /** The two enumerations and the two-bit fields they encode are in bijection. */
  lemma Discriminants(m: TransferMethod, m': TransferMethod, a: RequiredAccess, a': RequiredAccess)
    ensures m.Bits() <= 3 && a.Bits() <= 3
    ensures m.Bits() == m'.Bits() ==> m == m'
    ensures a.Bits() == a'.Bits() ==> a == a'
  {
  }

  lemma MethodBits(c: IoControlCode)
    ensures c.Method().Bits() == c.raw & 3
  {
    LowTwoBits(c.raw);
  }

  lemma AccessBits(c: IoControlCode)
    ensures c.Access().Bits() == (c.raw >> 14) & 3
  {
    LowTwoBits(c.raw >> 14);
  }

  lemma LowTwoBits(bits: bv32)
    ensures var low := bits & 3; low == 0 || low == 1 || low == 2 || low == 3
  {
  }

  /** What each accessor reads back, for every input: bits 12-13 of the function number spill into the
      access field and bits 14-15 into the device type. */
  lemma NewDecoded(deviceType: bv16, func: bv16, m: TransferMethod, access: RequiredAccess)
    ensures var c := New(deviceType, func, m, access);
            && c.Method() == m
            && c.Function() == func & 0x0FFF
            && c.Access().Bits() == access.Bits() | (((func >> 12) & 3) as bv32)
            && c.DeviceType() == deviceType | (func >> 14)
  {
    var c := New(deviceType, func, m, access);
    Discriminants(m, c.Method(), access, access);
    MethodBits(c);
    AccessBits(c);
    PackedFields(deviceType, func, m.Bits(), access.Bits());
  }

  lemma SmallFunction(func: bv16)
    ensures func & 0x0FFF == func <==> func <= 0x0FFF
    ensures func <= 0x0FFF ==> func >> 14 == 0 && (func >> 12) & 3 == 0
  {
  }

  lemma RoundTrip(dt: bv16, func: bv16, m: TransferMethod, a: RequiredAccess)
    ensures var c := New(dt, func, m, a);
            && (c.Function() == func <==> func <= 0x0FFF)
            && (func <= 0x0FFF ==> c.DeviceType() == dt && c.Method() == m && c.Access() == a)
  {
    SmallFunction(func);
    NewDecoded(dt, func, m, a);
    if func <= 0x0FFF {
      Discriminants(m, m, a, New(dt, func, m, a).Access());
    }
  }

  /** All four fields come back, whatever the device type and access, exactly when the function number
      fits its twelve bits. */
  lemma RoundTripIff(func: bv16)
    ensures (forall dt: bv16, m: TransferMethod, a: RequiredAccess ::
               var c := New(dt, func, m, a);
               c.DeviceType() == dt && c.Function() == func && c.Method() == m && c.Access() == a)
            <==> func <= 0x0FFF
  {
    SmallFunction(func);
    forall dt: bv16, m: TransferMethod, a: RequiredAccess
      ensures var c := New(dt, func, m, a);
              && (c.Function() == func <==> func <= 0x0FFF)
              && (func <= 0x0FFF ==> c.DeviceType() == dt && c.Method() == m && c.Access() == a)
    {
      RoundTrip(dt, func, m, a);
    }
    var c := New(0, func, Buffered, Any);
    assert c.Function() == func <==> func <= 0x0FFF;
  }

  /** Every 32-bit code is the code of its own four fields. */
  lemma NewOfFields(c: IoControlCode)
    ensures New(c.DeviceType(), c.Function(), c.Method(), c.Access()) == c
    ensures c.Function() <= 0x0FFF
  {
    MethodBits(c);
    AccessBits(c);
    UnpackedFields(c.raw);
  }

  /** A code is nothing but its four fields. */
  lemma SameFields(c: IoControlCode, m1: TransferMethod, f1: bv16, a1: bv32, t1: bv16,
                   d: IoControlCode, m2: TransferMethod, f2: bv16, a2: bv32, t2: bv16)
    requires c.Method() == m1 && c.Function() == f1 && c.Access().Bits() == a1 && c.DeviceType() == t1
    requires d.Method() == m2 && d.Function() == f2 && d.Access().Bits() == a2 && d.DeviceType() == t2
    ensures c == d <==> m1 == m2 && f1 == f2 && a1 == a2 && t1 == t2
  {
    NewOfFields(c);
    NewOfFields(d);
    Discriminants(m1, m2, c.Access(), d.Access());
  }

  /** Two declarations agree on the method, on the twelve function bits the accessor reads, on the access bits with
      what spills into them, and on the device type with what spills into it. */
  predicate Indistinct(dt1: bv16, f1: bv16, m1: TransferMethod, a1: RequiredAccess,
                       dt2: bv16, f2: bv16, m2: TransferMethod, a2: RequiredAccess)
  {
    && m1 == m2 && f1 & 0x0FFF == f2 & 0x0FFF
    && a1.Bits() | (((f1 >> 12) & 3) as bv32) == a2.Bits() | (((f2 >> 12) & 3) as bv32)
    && dt1 | (f1 >> 14) == dt2 | (f2 >> 14)
  }

  lemma SharersIndistinct(dt1: bv16, f1: bv16, m1: TransferMethod, a1: RequiredAccess,
                          dt2: bv16, f2: bv16, m2: TransferMethod, a2: RequiredAccess)
    requires New(dt1, f1, m1, a1) == New(dt2, f2, m2, a2)
    ensures Indistinct(dt1, f1, m1, a1, dt2, f2, m2, a2)
  {
    NewDecoded(dt1, f1, m1, a1);
    NewDecoded(dt2, f2, m2, a2);
  }

  lemma IndistinctShare(dt1: bv16, f1: bv16, m1: TransferMethod, a1: RequiredAccess,
                        dt2: bv16, f2: bv16, m2: TransferMethod, a2: RequiredAccess)
    requires Indistinct(dt1, f1, m1, a1, dt2, f2, m2, a2)
    ensures New(dt1, f1, m1, a1) == New(dt2, f2, m2, a2)
  {
    var c1, c2 := New(dt1, f1, m1, a1), New(dt2, f2, m2, a2);
    NewDecoded(dt1, f1, m1, a1);
    NewDecoded(dt2, f2, m2, a2);
    SameFields(c1, m1, f1 & 0x0FFF, a1.Bits() | (((f1 >> 12) & 3) as bv32), dt1 | (f1 >> 14),
               c2, m2, f2 & 0x0FFF, a2.Bits() | (((f2 >> 12) & 3) as bv32), dt2 | (f2 >> 14));
  }

  /** Those, for all inputs, are exactly the declarations that share a code. */
  lemma NewCollidesIff(dt1: bv16, f1: bv16, m1: TransferMethod, a1: RequiredAccess,
                       dt2: bv16, f2: bv16, m2: TransferMethod, a2: RequiredAccess)
    ensures New(dt1, f1, m1, a1) == New(dt2, f2, m2, a2) <==> Indistinct(dt1, f1, m1, a1, dt2, f2, m2, a2)
  {
    if New(dt1, f1, m1, a1) == New(dt2, f2, m2, a2) {
      SharersIndistinct(dt1, f1, m1, a1, dt2, f2, m2, a2);
    } else if Indistinct(dt1, f1, m1, a1, dt2, f2, m2, a2) {
      IndistinctShare(dt1, f1, m1, a1, dt2, f2, m2, a2);
    }
  }

  /** Concatenating the bits of four fields is adding up their weights. */
  lemma FieldWeights(x: bv32, dt: bv16, a: bv2, f: bv12, m: bv2)
    requires x == ((dt as bv32) << 16) | ((a as bv32) << 14) | ((f as bv32) << 2) | (m as bv32)
    ensures x as int == (dt as int) * 0x1_0000 + (a as int) * 0x4000 + (f as int) * 4 + m as int
  {
  }

  /** The same, for the fields as the accessors read them. */
  lemma WordNumber(x: bv32, dt: bv16, a: bv32, f: bv16, m: bv32, xi: int, dti: int, ai: int, fi: int, mi: int)
    requires xi == x as int && dti == dt as int && ai == a as int && fi == f as int && mi == m as int
    requires dt == (x >> 16) as bv16 && f == ((x >> 2) & 0x0FFF) as bv16
    requires a == (x >> 14) & 3 && m == x & 3
    ensures xi == dti * 0x1_0000 + ai * 0x4000 + fi * 4 + mi
  {
    FieldWeights(x, (x >> 16) as bv16, ((x >> 14) & 3) as bv2, ((x >> 2) & 0x0FFF) as bv12, (x & 3) as bv2);
    NarrowedFields(x);
  }

  lemma NarrowedFields(x: bv32)
    ensures ((x >> 2) & 0x0FFF) as bv16 as int == ((x >> 2) & 0x0FFF) as bv12 as int
    ensures ((x >> 14) & 3) as int == ((x >> 14) & 3) as bv2 as int
    ensures (x & 3) as int == (x & 3) as bv2 as int
  {
  }

  function MethodNumber(m: TransferMethod): int {
    match m
    case Buffered => 0
    case InDirect => 1
    case OutDirect => 2
    case Neither => 3
  }

  function AccessNumber(a: RequiredAccess): int {
    match a
    case Any => 0
    case Read => 1
    case Write => 2
    case ReadWrite => 3
  }

  lemma DiscriminantNumbers(m: TransferMethod, a: RequiredAccess)
    ensures m.Bits() as int == MethodNumber(m) && a.Bits() as int == AccessNumber(a)
  {
  }

  lemma FieldsAsNumbers(c: IoControlCode, x: bv32, dt: bv16, a: bv32, f: bv16, m: bv32)
    requires x == c.raw && dt == c.DeviceType() && a == c.Access().Bits() && f == c.Function() && m == c.Method().Bits()
    ensures x as int == (dt as int) * 0x1_0000 + (a as int) * 0x4000 + (f as int) * 4 + m as int
  {
    MethodBits(c);
    AccessBits(c);
    WordNumber(x, dt, a, f, m, x as int, dt as int, a as int, f as int, m as int);
  }

  /** Every control code as a number: the four fields that the accessors read, each with its place value. */
  lemma CodeNumber(c: IoControlCode)
    ensures c.raw as int
            == (c.DeviceType() as int) * 0x1_0000 + AccessNumber(c.Access()) * 0x4000
               + (c.Function() as int) * 4 + MethodNumber(c.Method())
  {
    FieldsAsNumbers(c, c.raw, c.DeviceType(), c.Access().Bits(), c.Function(), c.Method().Bits());
    DiscriminantNumbers(c.Method(), c.Access());
  }

  /** The code of a declaration as a number, for every function number that fits its field. */
  lemma NewNumber(deviceType: bv16, func: bv16, m: TransferMethod, access: RequiredAccess)
    requires func <= 0x0FFF
    ensures var transfer := match m case Buffered => 0 case InDirect => 1 case OutDirect => 2 case Neither => 3;
            var rights := match access case Any => 0 case Read => 1 case Write => 2 case ReadWrite => 3;
            New(deviceType, func, m, access).raw as int
            == (deviceType as int) * 0x1_0000 + rights * 0x4000 + (func as int) * 4 + transfer
  {
    RoundTrip(deviceType, func, m, access);
    CodeNumber(New(deviceType, func, m, access));
  }

  /** Field tuples with a twelve-bit function number and 32-bit codes are in bijection: `New` is
      injective there, and by NewOfFields it is onto. */
  lemma NewInjective(dt1: bv16, f1: bv16, m1: TransferMethod, a1: RequiredAccess,
                     dt2: bv16, f2: bv16, m2: TransferMethod, a2: RequiredAccess)
    requires f1 <= 0x0FFF && f2 <= 0x0FFF
    requires New(dt1, f1, m1, a1) == New(dt2, f2, m2, a2)
    ensures dt1 == dt2 && f1 == f2 && m1 == m2 && a1 == a2
  {
    RoundTrip(dt1, f1, m1, a1);
    RoundTrip(dt2, f2, m2, a2);
  }

  /** Outside twelve bits two declarations can share one code: function 0x1800 with access Any is
      function 0x800 with access Read. */
  lemma OversizedFunctionCollides()
    ensures New(0x8000, 0x1800, Buffered, Any) == New(0x8000, 0x0800, Buffered, Read)
  {
  }

  // ----- field offsets

  datatype IoStackOffsets = IoStackOffsets(
    ioctlCode: nat, inputBufferLength: nat, outputBufferLength: nat, irpSystemBuffer: nat, irpInformation: nat)
  {
    /** The fields lie inside a stack location of `slot` bytes and an IRP of `header` bytes, and no two
        fields of one structure overlap. */
    predicate Fits(slot: nat, header: nat) {
      && ioctlCode + 4 <= slot && inputBufferLength + 4 <= slot && outputBufferLength + 4 <= slot
      && irpSystemBuffer + 8 <= header && irpInformation + 8 <= header
      && Apart(ioctlCode, 4, inputBufferLength, 4)
      && Apart(ioctlCode, 4, outputBufferLength, 4)
      && Apart(inputBufferLength, 4, outputBufferLength, 4)
      && Apart(irpSystemBuffer, 8, irpInformation, 8)
    }
  }

  const WDK_SYS_0_5_X64 := IoStackOffsets(0x18, 0x10, 0x08, 0x70, 0x38)

  /** The shipped table is well-formed for exactly the structures long enough to hold its last fields. */
  lemma ShippedOffsetsFit(slot: nat, header: nat)
    ensures WDK_SYS_0_5_X64.Fits(slot, header) <==> slot >= 0x1C && header >= 0x78
  {
  }
}
