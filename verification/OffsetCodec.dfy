/** `Offset` and its integer form (src/topic_partition_list.rs). Integers are 64-bit; arithmetic wraps around, as it
    does in a release build. */
module OffsetCodec {
  import opened Wrappers

  const OFFSET_BEGINNING: int := -2
  const OFFSET_END: int := -1
  const OFFSET_STORED: int := -1000
  const OFFSET_INVALID: int := -1001
  const OFFSET_TAIL_BASE: int := -2000
  const I64_MIN: int := -0x8000_0000_0000_0000
  const I64_MAX: int := 0x7fff_ffff_ffff_ffff

  predicate IsI64(n: int) { I64_MIN <= n <= I64_MAX }

  function WrapI64(n: int): int {
    (n - I64_MIN) % 0x1_0000_0000_0000_0000 + I64_MIN
  }

  datatype Offset = Beginning | End | Stored | Invalid | Exactly(n: int) | Tail(n: int) {

    /** The values that the type can hold. */
    predicate WellTyped() {
      (Exactly? || Tail?) ==> IsI64(n)
    }

    function ToRaw(): Option<int> {
      match this
      case Beginning => Some(OFFSET_BEGINNING)
      case End => Some(OFFSET_END)
      case Stored => Some(OFFSET_STORED)
      case Invalid => Some(OFFSET_INVALID)
      case Exactly(n) => if n >= 0 then Some(n) else None
      case Tail(n) => if n > 0 then Some(WrapI64(OFFSET_TAIL_BASE - n)) else None
    }

    /** Encoding it does not overflow. */
    predicate Fits() {
      Tail? ==> n <= I64_MAX - 1999
    }
  }

  function FromRaw(raw: int): Offset {
    if raw == OFFSET_BEGINNING then Beginning
    else if raw == OFFSET_END then End
    else if raw == OFFSET_STORED then Stored
    else if raw == OFFSET_INVALID then Invalid
    else if raw <= OFFSET_TAIL_BASE then Tail(WrapI64(-(raw - OFFSET_TAIL_BASE)))
    else Exactly(raw)
  }

  /** The values that native has names for, and the others. */
  lemma NamedValues(o: Offset)
    ensures Beginning.ToRaw() == Some(-2) && End.ToRaw() == Some(-1)
    ensures Stored.ToRaw() == Some(-1000) && Invalid.ToRaw() == Some(-1001)
    ensures FromRaw(-2) == Beginning && FromRaw(-1) == End && FromRaw(-1000) == Stored && FromRaw(-1001) == Invalid
    ensures o.Exactly? && o.n >= 0 ==> o.ToRaw() == Some(o.n)
    ensures o.Tail? && 0 < o.n <= I64_MAX - 1999 ==> o.ToRaw() == Some(-2000 - o.n)
    ensures (o.Exactly? && o.n < 0) || (o.Tail? && o.n <= 0) ==> o.ToRaw() == None
  {
    if o.Tail? && 0 < o.n <= I64_MAX - 1999 { WrapIsIdentity(OFFSET_TAIL_BASE - o.n); }
  }

  lemma WrapIsIdentity(n: int)
    requires IsI64(n)
    ensures WrapI64(n) == n
  {
  }

  lemma WrapOverflows(n: int)
    requires I64_MIN - 0x1_0000_0000_0000_0000 <= n < I64_MIN
    ensures WrapI64(n) == n + 0x1_0000_0000_0000_0000
  {
    assert (n - I64_MIN) % 0x1_0000_0000_0000_0000 == n - I64_MIN + 0x1_0000_0000_0000_0000;
  }

  /** An encodable offset decodes to itself exactly when its encoding does not overflow; a tail that overflows
      comes back as an absolute offset. */
  lemma OffsetRoundTrip(o: Offset)
    requires o.WellTyped() && o.ToRaw().Some?
    ensures IsI64(o.ToRaw().value)
    ensures FromRaw(o.ToRaw().value) == o <==> o.Fits()
    ensures !o.Fits() ==> FromRaw(o.ToRaw().value).Exactly?
  {
    if o.Tail? {
      if o.Fits() {
        WrapIsIdentity(OFFSET_TAIL_BASE - o.n);
        WrapIsIdentity(o.n);
      } else {
        WrapOverflows(OFFSET_TAIL_BASE - o.n);
      }
    }
  }

  /** The absolute offset that a tail turns into when its encoding overflows. */
  predicate OverflowsOnto(a: Offset, b: Offset) {
    a.Tail? && !a.Fits() && b == Exactly(OFFSET_TAIL_BASE - a.n + 0x1_0000_0000_0000_0000)
  }

  /** Two encodable offsets share an encoding exactly when they are the same or one is a tail that overflows onto the
      other; so the encoding is injective on the offsets that fit. */
  lemma SameRawIff(a: Offset, b: Offset)
    requires a.WellTyped() && b.WellTyped() && a.ToRaw().Some? && b.ToRaw().Some?
    ensures a.ToRaw() == b.ToRaw() <==> a == b || OverflowsOnto(a, b) || OverflowsOnto(b, a)
    ensures a.Fits() && b.Fits() ==> (a.ToRaw() == b.ToRaw() <==> a == b)
  {
    RawOf(a);
    RawOf(b);
  }

  /** The encoding without wrap-around: a tail goes below the base, or wraps round to the top. */
  lemma RawOf(o: Offset)
    requires o.WellTyped() && o.ToRaw().Some?
    ensures o.Tail? ==> o.ToRaw().value == OFFSET_TAIL_BASE - o.n + (if o.Fits() then 0 else 0x1_0000_0000_0000_0000)
  {
    if o.Tail? {
      if o.Fits() { WrapIsIdentity(OFFSET_TAIL_BASE - o.n); } else { WrapOverflows(OFFSET_TAIL_BASE - o.n); }
    }
  }

  /** Decoding loses nothing, for any 64-bit integer. */
  lemma FromRawInjective(m: int, n: int)
    requires IsI64(m) && IsI64(n) && FromRaw(m) == FromRaw(n)
    ensures m == n
  {
    if m <= OFFSET_TAIL_BASE { WrapIsIdentity(-(m - OFFSET_TAIL_BASE)); }
    if n <= OFFSET_TAIL_BASE { WrapIsIdentity(-(n - OFFSET_TAIL_BASE)); }
  }

  /** The integers that survive decoding and encoding, and no others; the rest decode to an offset that cannot be
      encoded at all. */
  lemma RawRoundTrip(n: int)
    requires IsI64(n)
    ensures FromRaw(n).WellTyped() && FromRaw(n).Fits()
    ensures FromRaw(n).ToRaw() == Some(n) <==>
      n >= 0 || n in {OFFSET_BEGINNING, OFFSET_END, OFFSET_STORED, OFFSET_INVALID} || n < OFFSET_TAIL_BASE
    ensures FromRaw(n).ToRaw() != Some(n) ==>
      FromRaw(n).ToRaw() == None && FromRaw(n) == if n == OFFSET_TAIL_BASE then Tail(0) else Exactly(n)
  {
    if n <= OFFSET_TAIL_BASE {
      WrapIsIdentity(-(n - OFFSET_TAIL_BASE));
      WrapIsIdentity(n);
    }
  }
}
