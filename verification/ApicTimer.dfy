/** The emulated local-APIC timer, shared by both backends: its registers, what a
    guest write and an expiry do to them, and the laws of the periodic mode. */
module ApicTimer {
  import opened Bits
  import opened Options

  const IA32_TSC_DEADLINE: u32 := 0x6E0
  const IA32_X2APIC_LVT_TIMER: u32 := 0x832
  const IA32_X2APIC_INIT_COUNT: u32 := 0x838

  const LVT_MASKED: nat := 0x1_0000
  const LVT_TIMER_MODE_MASK: nat := 0x6_0000
  const LVT_TIMER_MODE_PERIODIC: nat := 0x2_0000
  const LVT_TIMER_MODE_TSC_DEADLINE: nat := 0x4_0000

  datatype ApicTimer = ApicTimer(vector: u8, masked: bool, tscDeadlineMode: bool, periodic: bool,
                                 deadline: Option<u64>, period: Option<u64>)

  const RESET := ApicTimer(0, false, false, false, None, None)

  /** `_rdtsc() + ticks` and the like, in 64 bits. */
  function Add64(a: u64, b: u64): u64 {
    (a + b) % WORD
  }

  function SaturatingAdd(a: u64, b: u64): u64 {
    if a + b < WORD then a + b else U64_MAX
  }

  lemma LowByte(value: u64, k: nat)
    requires k == 0
    ensures And(value, 0xFF) == value % 0x100
  {
    Plus3(k);
    Plus3(k + 3);
    assert Ones(k + 8) == 2 * (2 * Ones(k + 6) + 1) + 1;
    AndFieldArithmetic(value, k, k + 8, 1, 0x100, 0xFF);
  }

  /** The LVT fields: mask bit 16 and mode bits 18:17. */
  lemma LvtFields(value: u64, k: nat)
    requires k == 0
    ensures And(value, LVT_MASKED) != 0 <==> value / 0x1_0000 % 2 == 1
    ensures And(value, LVT_TIMER_MODE_MASK) == value / 0x2_0000 % 4 * 0x2_0000
  {
    Plus12(k);
    Plus3(k + 12);
    assert Ones(k + 17) == 2 * Ones(k + 16) + 1 && Ones(k + 16) == 2 * Ones(k + 15) + 1;
    assert Ones(k + 2) == 2 * Ones(k + 1) + 1 && Ones(k + 1) == 2 * Ones(k) + 1;
    AndFieldArithmetic(value, k + 16, k + 1, 0x1_0000, 2, LVT_MASKED);
    AndFieldArithmetic(value, k + 17, k + 2, 0x2_0000, 4, LVT_TIMER_MODE_MASK);
  }

  /** A guest write to one of the timer registers, at time `now`. */
  function WriteTimer(t: ApicTimer, msr: u32, value: u64, now: u64): ApicTimer {
    if msr == IA32_X2APIC_LVT_TIMER then
      LowByte(value, 0);
      var masked := And(value, LVT_MASKED) != 0;
      var mode := And(value, LVT_TIMER_MODE_MASK);
      t.(vector := And(value, 0xFF), masked := masked,
         tscDeadlineMode := mode == LVT_TIMER_MODE_TSC_DEADLINE, periodic := mode == LVT_TIMER_MODE_PERIODIC,
         deadline := if masked then None else t.deadline, period := if masked then None else t.period)
    else if msr == IA32_TSC_DEADLINE then
      t.(deadline := if value != 0 && !t.masked then Some(value) else None, period := None)
    else if msr == IA32_X2APIC_INIT_COUNT then
      if value == 0 || t.masked || t.tscDeadlineMode then t.(deadline := None, period := None)
      else t.(deadline := Some(Add64(now, value)), period := if t.periodic then Some(value) else None)
    else t
  }

  /** `write_apic_timer_msr`, which both backends perform on their timer. */
  method ProgramTimer(t: ApicTimer, msr: u32, value: u64, now: u64) returns (timer: ApicTimer)
    ensures timer == WriteTimer(t, msr, value, now)
  {
    timer := t;
    if msr == IA32_X2APIC_LVT_TIMER {
      LowByte(value, 0);
      timer := timer.(vector := And(value, 0xFF));
      timer := timer.(masked := And(value, LVT_MASKED) != 0);
      var mode := And(value, LVT_TIMER_MODE_MASK);
      timer := timer.(tscDeadlineMode := mode == LVT_TIMER_MODE_TSC_DEADLINE);
      timer := timer.(periodic := mode == LVT_TIMER_MODE_PERIODIC);
      if timer.masked {
        timer := timer.(deadline := None, period := None);
      }
    } else if msr == IA32_TSC_DEADLINE {
      timer := timer.(deadline := if value != 0 && !timer.masked then Some(value) else None);
      timer := timer.(period := None);
    } else if msr == IA32_X2APIC_INIT_COUNT {
      if value == 0 || timer.masked || timer.tscDeadlineMode {
        timer := timer.(deadline := None, period := None);
      } else {
        timer := timer.(deadline := Some(Add64(now, value)));
        timer := timer.(period := if timer.periodic then Some(value) else None);
      }
    }
  }

  /** The armed deadline elapses: a periodic timer is armed for the next period. */
  function Expire(t: ApicTimer): ApicTimer {
    match t.deadline
    case None => t
    case Some(d) => t.(deadline := if t.period.Some? then Some(SaturatingAdd(d, t.period.value)) else None)
  }

  /** RDMSR of TSC_DEADLINE. */
  function ReadDeadline(t: ApicTimer): u64 {
    if t.deadline.Some? then t.deadline.value else 0
  }

  // --- The state invariant --------------------------------------------------------------

  predicate Inv(t: ApicTimer) {
    && (t.masked ==> t.deadline.None? && t.period.None?)
    && (t.period.Some? ==> 0 < t.period.value && t.deadline.Some?)
    && (t.deadline.Some? ==> 0 < t.deadline.value)
  }

  /** The write that arms the timer with a deadline that wraps to zero. */
  predicate WrapsToZero(t: ApicTimer, msr: u32, value: u64, now: u64) {
    msr == IA32_X2APIC_INIT_COUNT && value != 0 && !t.masked && !t.tscDeadlineMode && now + value == WORD
  }

  /** Guest writes keep the invariant, except for the one that wraps to zero. */
  lemma WriteKeepsInv(t: ApicTimer, msr: u32, value: u64, now: u64)
    requires Inv(t)
    ensures Inv(WriteTimer(t, msr, value, now)) <==> !WrapsToZero(t, msr, value, now)
  {
  }

  /** Such a write: one tick before the end of time the reset timer is armed with a deadline of
      zero, and the guest reads it as disarmed. */
  lemma ArmedReadsZero()
    ensures Inv(RESET) && WrapsToZero(RESET, IA32_X2APIC_INIT_COUNT, U64_MAX, 1)
    ensures var t := WriteTimer(RESET, IA32_X2APIC_INIT_COUNT, U64_MAX, 1); t.deadline.Some? && ReadDeadline(t) == 0
  {
  }

  lemma ExpireKeepsInv(t: ApicTimer)
    requires Inv(t)
    ensures Inv(Expire(t))
  {
  }

  lemma ReadsZeroIffDisarmed(t: ApicTimer)
    requires Inv(t)
    ensures ReadDeadline(t) == 0 <==> t.deadline.None?
  {
  }

  // --- The periodic timer -----------------------------------------------------------------

  function Expires(t: ApicTimer, n: nat): ApicTimer {
    if n == 0 then t else Expire(Expires(t, n - 1))
  }

  /** No drift: the deadline after `n` expiries depends on nothing but the first
      deadline and the period, however late the expiries are noticed. */
  lemma {:induction false} NoDrift(t: ApicTimer, n: nat)
    requires t.deadline.Some? && t.period.Some?
    ensures Expires(t, n)
            == t.(deadline := Some(Min(t.deadline.value + n * t.period.value, U64_MAX)))
  {
    if n > 0 {
      NoDrift(t, n - 1);
      assert t.deadline.value + n * t.period.value
          == t.deadline.value + (n - 1) * t.period.value + t.period.value;
    }
  }

  function Min(a: int, b: int): int {
    if a < b then a else b
  }

  /** `service_timer` at time `now`, without the vector. */
  function Poll(t: ApicTimer, now: u64): ApicTimer {
    if t.deadline.Some? && t.deadline.value <= now then Expire(t) else t
  }

  function Polls(t: ApicTimer, now: u64, k: nat): ApicTimer {
    if k == 0 then t else Poll(Polls(t, now, k - 1), now)
  }

  /** How many periods a timer is late by `now`. */
  function Late(t: ApicTimer, now: u64): nat
    requires Inv(t) && t.period.Some? && t.deadline.value <= now
  {
    (now - t.deadline.value) / t.period.value + 1
  }

  lemma LateIff(d: nat, p: nat, now: nat, k: nat)
    requires 0 < p && d <= now
    ensures k < (now - d) / p + 1 <==> d + k * p <= now
  {
    var q, r := (now - d) / p, (now - d) % p;
    assert now - d == p * q + r;
    if k <= q {
      assert p * k <= p * q by { if k < q { ProductGrows(p, k, q); } }
    } else {
      ProductGrows(p, q, k);
    }
  }

  lemma NthDeadline(t: ApicTimer, now: u64, k: nat)
    requires Inv(t) && t.period.Some? && t.deadline.value <= now < U64_MAX
    ensures Expires(t, k).deadline.Some? && (Expires(t, k).deadline.value <= now <==> k < Late(t, now))
  {
    NoDrift(t, k);
    LateIff(t.deadline.value, t.period.value, now, k);
  }

  /** Polled over and over at one instant that lies before the end of time, a late
      periodic timer fires `(now - d) / p + 1` times, and then no more. */
  lemma {:induction false} CatchUp(t: ApicTimer, now: u64, k: nat)
    requires Inv(t) && t.period.Some? && t.deadline.value <= now < U64_MAX
    ensures Polls(t, now, k) == Expires(t, Min(k, Late(t, now)))
    ensures Polls(t, now, k).deadline.Some? && (Polls(t, now, k).deadline.value > now <==> Late(t, now) <= k)
  {
    hide Late, Expire;
    NthDeadline(t, now, Min(k, Late(t, now)));
    if k > 0 {
      CatchUp(t, now, k - 1);
    }
  }

  /** At the end of time a periodic timer never gets past `now`. */
  lemma {:induction false} NeverCatchesUp(t: ApicTimer, k: nat)
    requires Inv(t) && t.period.Some?
    ensures Polls(t, U64_MAX, k) == Expires(t, k) && Polls(t, U64_MAX, k).deadline.Some?
  {
    NoDrift(t, k);
    if k > 0 {
      NeverCatchesUp(t, k - 1);
      NoDrift(t, k - 1);
    }
  }

  // --- What a write schedules ---------------------------------------------------------------

  /** The deadline that the `n`-th expiry from now will have, if there is one. */
  function Scheduled(t: ApicTimer, n: nat): Option<u64> {
    Expires(t, n).deadline
  }

  lemma {:induction false} OneShot(t: ApicTimer, n: nat)
    requires t.period.None?
    ensures Expires(t, n) == if n == 0 then t else t.(deadline := None)
  {
    if n > 0 {
      OneShot(t, n - 1);
    }
  }

  /** A TSC deadline is served once, in whatever mode the timer is; zero disarms it. */
  lemma DeadlineSchedule(t: ApicTimer, value: u64, now: u64, n: nat)
    ensures Scheduled(WriteTimer(t, 0x6E0, value, now), n)
            == if n == 0 && value != 0 && !t.masked then Some(value) else None
  {
    OneShot(WriteTimer(t, 0x6E0, value, now), n);
  }

  /** A count is served `value` ticks from now, and in periodic mode every `value` ticks after.
      When the sum does not fit 64 bits the first deadline wraps into the past. */
  lemma CountSchedule(t: ApicTimer, value: u64, now: u64, n: nat)
    ensures var armed := value != 0 && !t.masked && !t.tscDeadlineMode;
            var first := if now + value < WORD then now + value else now + value - WORD;
            && (now + value < WORD <==> now <= first)
            && Scheduled(WriteTimer(t, 0x838, value, now), n)
               == if armed && t.periodic then Some(Min(first + n * value, U64_MAX))
                  else if armed && n == 0 then Some(first)
                  else None
  {
    var t' := WriteTimer(t, 0x838, value, now);
    if t'.period.Some? {
      NoDrift(t', n);
    } else {
      OneShot(t', n);
    }
  }

  /** An LVT write sets vector, mask and mode from its bit fields. Masking cancels what is
      scheduled; a change of mode does not, so a period can outlive periodic mode. */
  lemma LvtWrite(t: ApicTimer, value: u64, now: u64, n: nat)
    ensures var t' := WriteTimer(t, 0x832, value, now);
            && t'.vector == value % 0x100 && t'.masked == (value / 0x1_0000 % 2 == 1)
            && t'.periodic == (value / 0x2_0000 % 4 == 1) && t'.tscDeadlineMode == (value / 0x2_0000 % 4 == 2)
            && Scheduled(t', n) == if t'.masked then None else Scheduled(t, n)
  {
    hide And;
    LowByte(value, 0);
    LvtFields(value, 0);
    var t' := WriteTimer(t, 0x832, value, now);
    if t'.masked {
      OneShot(t', n);
    } else {
      SameSchedule(t, t', n);
    }
  }

  // --- The LVT entry ------------------------------------------------------------------------

  /** Vector, mask and mode are those of the LVT value: bits 7:0, 16 and 18:17. */
  predicate Lvt(t: ApicTimer, value: u64) {
    && t.vector == value % 0x100 && t.masked == (value / 0x1_0000 % 2 == 1)
    && t.periodic == (value / 0x2_0000 % 4 == 1) && t.tscDeadlineMode == (value / 0x2_0000 % 4 == 2)
  }

  lemma ResetLvt()
    ensures Lvt(RESET, 0)
  {
  }

  /** A write to the LVT entry, MSR 0x832, sets them, and a write to any other MSR keeps them. */
  lemma WriteSetsLvt(t: ApicTimer, msr: u32, value: u64, now: u64, lvt: u64)
    requires Lvt(t, lvt)
    ensures Lvt(WriteTimer(t, msr, value, now), if msr == 0x832 then value else lvt)
  {
    hide And;
    LowByte(value, 0);
    LvtFields(value, 0);
  }

  lemma PollKeepsLvt(t: ApicTimer, now: u64, lvt: u64)
    requires Lvt(t, lvt)
    ensures Lvt(Poll(t, now), lvt) && Lvt(Expire(t), lvt)
  {
  }

  /** RDMSR of TSC_DEADLINE returns what WRMSR armed, and zero if the timer is masked. */
  lemma DeadlineReads(t: ApicTimer, value: u64, now: u64)
    ensures ReadDeadline(WriteTimer(t, 0x6E0, value, now)) == if t.masked then 0 else value
  {
  }

  lemma {:induction false} SameSchedule(t: ApicTimer, u: ApicTimer, n: nat)
    requires t.deadline == u.deadline && t.period == u.period
    ensures Expires(t, n).deadline == Expires(u, n).deadline && Expires(t, n).period == Expires(u, n).period
  {
    if n > 0 {
      SameSchedule(t, u, n - 1);
    }
  }
}
