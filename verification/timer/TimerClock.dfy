/**
Time as LocTimer computes with it: struct timespec values, the 32-bit int that
LocTimerDelegate::ranks returns, and the due time that LocTimer::start computes.
*/
module TimerClock {

  const NSEC_PER_SEC: int := 1_000_000_000
  const TWO_31: int := 0x8000_0000
  const TWO_32: int := 0x1_0000_0000

  datatype Timespec = Timespec(sec: int, nsec: int)

  predicate Normalized(t: Timespec) { 0 <= t.nsec < NSEC_PER_SEC }

  function Nanos(t: Timespec): int { t.sec * NSEC_PER_SEC + t.nsec }

  /** Conversion to a 32-bit two's complement int. */
  function ToInt32(x: int): int { (x + TWO_31) % TWO_32 - TWO_31 }

  /** LocTimerDelegate::ranks: a later time ranks lower. */
  function Ranks(mine: Timespec, other: Timespec): int {
    var rank := ToInt32(other.sec - mine.sec);
    if rank == 0 then ToInt32(other.nsec - mine.nsec) else rank
  }

  /** No truncation takes place, and the sign is that of the time difference. */
  lemma RanksIsReverseChronological(a: Timespec, b: Timespec)
    requires Normalized(a) && Normalized(b) && -TWO_31 <= b.sec - a.sec < TWO_31
    ensures Ranks(a, b) == if a.sec != b.sec then b.sec - a.sec else b.nsec - a.nsec
    ensures Ranks(a, b) > 0 <==> Nanos(a) < Nanos(b)
    ensures Ranks(a, b) == 0 <==> Nanos(a) == Nanos(b)
    ensures Ranks(a, b) < 0 <==> Nanos(a) > Nanos(b)
  {
  }

  function Sign(x: int): int { if x > 0 then 1 else if x < 0 then -1 else 0 }

  /** For times less than 2^32 seconds apart that window is exact. */
  lemma RanksRightIff(a: Timespec, b: Timespec)
    requires Normalized(a) && Normalized(b) && -TWO_32 < b.sec - a.sec < TWO_32
    ensures Sign(Ranks(a, b)) == Sign(Nanos(b) - Nanos(a)) <==> -0x8000_0000 <= b.sec - a.sec < 0x8000_0000
  {
  }

  /**
  At any distance, what counts are the seconds modulo 2^32: they must lie in the half that their sign
  asks for, or be none, and the nanoseconds then decide.
  */
  lemma RanksRightAtAnyDistance(a: Timespec, b: Timespec)
    requires Normalized(a) && Normalized(b)
    ensures var d := b.sec - a.sec; var r := d % TWO_32;
      Sign(Ranks(a, b)) == Sign(Nanos(b) - Nanos(a)) <==>
        if d == 0 then true
        else if r == 0 then Sign(d) == Sign(b.nsec - a.nsec)
        else (d > 0 <==> r < TWO_31)
  {
    var d := b.sec - a.sec;
    var r := d % TWO_32;
    assert d == TWO_32 * (d / TWO_32) + r;
    ToInt32Modulo(d);
    ToInt32Modulo(b.nsec - a.nsec);
    assert d > 0 ==> Nanos(b) - Nanos(a) > 0;
    assert d < 0 ==> Nanos(b) - Nanos(a) < 0;
  }

  lemma ToInt32Modulo(x: int)
    ensures var r := x % TWO_32; ToInt32(x) == if r < TWO_31 then r else r - TWO_32
  {
    var q, r := x / TWO_32, x % TWO_32;
    assert x == TWO_32 * q + r;
    var y := if r < TWO_31 then r + TWO_31 else r - TWO_31;
    assert x + TWO_31 == TWO_32 * (if r < TWO_31 then q else q + 1) + y;
    assert 0 <= y < TWO_32;
    ModuloIs(x + TWO_31, if r < TWO_31 then q else q + 1, y);
  }

  lemma ModuloIs(x: int, q: int, r: int)
    requires x == TWO_32 * q + r && 0 <= r < TWO_32
    ensures x % TWO_32 == r
  {
    var q' := x / TWO_32;
    assert TWO_32 * (q - q') == x % TWO_32 - r;
    assert -1 < q - q' < 1;
  }

  /** Beyond that window the order is lost: 2^31 seconds later ranks as earlier. */
  lemma RanksWrapsAround(t: Timespec)
    requires Normalized(t)
    ensures var later := Timespec(t.sec + TWO_31, t.nsec);
            Nanos(t) < Nanos(later) && Ranks(t, later) < 0
  {
  }

  /** The clock readings and due times of one boot: positive, below 2^31 seconds. */
  predicate InWindow(t: Timespec) { Normalized(t) && 0 <= t.sec < TWO_31 && Nanos(t) > 0 }

  type Time = t: Timespec | InWindow(t) witness Timespec(1, 0)

  /** The due time computed by LocTimer::start; ms is a 32-bit unsigned, tv_nsec a 32-bit long. */
  function FutureTime(now: Timespec, ms: int): Timespec {
    var sec := now.sec + ms / 1000;
    var nsec := ToInt32(now.nsec + (ms % 1000 * 1000000) % TWO_32);
    if nsec >= NSEC_PER_SEC then Timespec(sec + nsec / NSEC_PER_SEC, nsec % NSEC_PER_SEC)
    else Timespec(sec, nsec)
  }

  /** No product or sum overflows 32 bits, and the due time is exactly ms milliseconds ahead. */
  lemma FutureTimeIsExact(now: Timespec, ms: int)
    requires Normalized(now) && 0 <= ms < TWO_32
    ensures ms % 1000 * 1000000 < TWO_32 && now.nsec + ms % 1000 * 1000000 < TWO_31
    ensures Normalized(FutureTime(now, ms))
    ensures Nanos(FutureTime(now, ms)) == Nanos(now) + ms * 1000000
  {
    var n := now.nsec + ms % 1000 * 1000000;
    assert ToInt32(n) == n;
    assert ms == ms / 1000 * 1000 + ms % 1000;
  }
}
