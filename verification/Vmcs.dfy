/** The VT-x control structure as the processor offers it: a store of fields by encoding,
    reached only through VMREAD and VMWRITE, each of which may fail. */
module Vmcs {
  import opened Bits
  import opened Options
  import S = VmxSpec

  const CONTROLS: u32 := 0x4002
  const ENTRY_INFO: u32 := 0x4016
  const INTERRUPTIBILITY: u32 := 0x4824
  const PREEMPTION_TIMER: u32 := 0x482E
  const EFER: u32 := 0x2806
  const FS_BASE: u32 := 0x680E
  const GS_BASE: u32 := 0x6810
  const RSP: u32 := 0x681C
  const RIP: u32 := 0x681E
  const RFLAGS: u32 := 0x6820
  const INSTRUCTION_ERROR: u32 := 0x4400
  const EXIT_REASON: u32 := 0x4402
  const INSTRUCTION_LENGTH: u32 := 0x440C
  const QUALIFICATION: u32 := 0x6400

  /** What a field can hold: bits 14:13 of its encoding give its width. */
  function Limit(field: u32): (limit: nat)
    ensures 0 < limit <= WORD
  {
    match field / 0x2000 % 4
    case 0 => 0x1_0000
    case 2 => 0x1_0000_0000
    case _ => WORD
  }

  type Store = map<u32, u64>

  /** VMREAD zero-extends a field, VMWRITE drops the bits that do not fit it. */
  function Fit(field: u32, value: u64): (v: u64)
    ensures value < Limit(field) ==> v == value
  {
    value % Limit(field)
  }

  function Peek(store: Store, field: u32): u64 {
    Fit(field, if field in store then store[field] else 0)
  }

  function Poke(store: Store, field: u32, value: u64): Store {
    store[field := Fit(field, value)]
  }

  lemma PeekPoke(store: Store, f: u32, value: u64, g: u32)
    ensures Peek(Poke(store, f, value), g) == if f == g then Fit(f, value) else Peek(store, g)
  {
  }

  /** The fields the run loop writes, as a record. */
  function View(store: Store): S.Vmcs {
    S.Vmcs(Peek(store, RIP), Peek(store, RSP), Peek(store, RFLAGS), Peek(store, INTERRUPTIBILITY), Peek(store, ENTRY_INFO),
           Peek(store, CONTROLS), Peek(store, PREEMPTION_TIMER), Peek(store, FS_BASE), Peek(store, GS_BASE), Peek(store, EFER))
  }

  /** The encodings of appendix B of volume 3 of the Intel 64 and IA-32 Software Developer's Manual:
      the fields of the record are the VMREADs of these. */
  lemma Encodings(store: Store)
    ensures var v := View(store);
            && v.rip == Peek(store, 0x681E) && v.rsp == Peek(store, 0x681C) && v.rflags == Peek(store, 0x6820)
            && v.interruptibility == Peek(store, 0x4824)
            && v.entryInfo == Peek(store, 0x4016) && v.controls == Peek(store, 0x4002)
            && v.preemptionTimer == Peek(store, 0x482E) && v.fsBase == Peek(store, 0x680E) && v.gsBase == Peek(store, 0x6810)
            && v.efer == Peek(store, 0x2806)
  {
    hide Peek;
  }

  /** The record with one field changed. */
  function With(v: S.Vmcs, field: u32, value: u64): S.Vmcs {
    if field == RIP then v.(rip := value)
    else if field == RSP then v.(rsp := value)
    else if field == RFLAGS then v.(rflags := value)
    else if field == INTERRUPTIBILITY then v.(interruptibility := value)
    else if field == ENTRY_INFO then v.(entryInfo := value)
    else if field == CONTROLS then v.(controls := value)
    else if field == PREEMPTION_TIMER then v.(preemptionTimer := value)
    else if field == FS_BASE then v.(fsBase := value)
    else if field == GS_BASE then v.(gsBase := value)
    else if field == EFER then v.(efer := value)
    else v
  }

  /** A VMWRITE updates its field of the record, to what fits of the value, and no other. */
  lemma PokeIsUpdate(store: Store, field: u32, value: u64)
    ensures View(Poke(store, field, value)) == With(View(store), field, Fit(field, value))
  {
    hide Peek, Poke, Limit, Fit;
    PeekPoke(store, field, value, RIP);
    PeekPoke(store, field, value, RSP);
    PeekPoke(store, field, value, RFLAGS);
    PeekPoke(store, field, value, INTERRUPTIBILITY);
    PeekPoke(store, field, value, ENTRY_INFO);
    PeekPoke(store, field, value, CONTROLS);
    PeekPoke(store, field, value, PREEMPTION_TIMER);
    PeekPoke(store, field, value, FS_BASE);
    PeekPoke(store, field, value, GS_BASE);
    PeekPoke(store, field, value, EFER);
  }

  lemma Limits()
    ensures Limit(CONTROLS) == Limit(ENTRY_INFO) == Limit(INTERRUPTIBILITY) == Limit(PREEMPTION_TIMER) == 0x1_0000_0000
    ensures Limit(INSTRUCTION_ERROR) == Limit(EXIT_REASON) == Limit(INSTRUCTION_LENGTH) == 0x1_0000_0000
    ensures Limit(RIP) == Limit(RSP) == Limit(RFLAGS) == Limit(FS_BASE) == Limit(GS_BASE) == Limit(EFER) == WORD
    ensures Limit(QUALIFICATION) == WORD
  {
  }

  /** The region of one vCPU. Access number `n` fails exactly when `faults(n)`, which the
      processor decides; `faulted` says whether one has failed yet. */
  class Region {
    const faults: nat -> bool
    var store: Store
    var count: nat
    var faulted: bool

    ghost predicate Valid()
      reads this`count, this`faulted
    {
      faulted <==> exists n: nat :: n < count && faults(n)
    }

    constructor (faults: nat -> bool, store: Store)
      ensures Valid() && !faulted && this.store == store
    {
      this.faults, this.store, count, faulted := faults, store, 0, false;
    }

    /** One access: whether it fails. */
    method Access() returns (fails: bool)
      requires Valid()
      modifies this`count, this`faulted
      ensures Valid() && faulted == (old(faulted) || fails)
    {
      fails := faults(count);
      faulted := faulted || fails;
      count := count + 1;
    }

    /** VMPTRLD, or VMCLEAR. */
    method Activate() returns (r: Result<()>)
      requires Valid()
      modifies this`count, this`faulted
      ensures Valid() && faulted == (old(faulted) || r.Err?)
      ensures r.Err? ==> r.error == VMCLEARFailed
    {
      var fails := Access();
      r := if fails then Err(VMCLEARFailed) else Ok(());
    }

    method Read(field: u32) returns (r: Result<u64>)
      requires Valid()
      modifies this`count, this`faulted
      ensures Valid() && faulted == (old(faulted) || r.Err?)
      ensures r == if r.Err? then Err(VMREADFailed) else Ok(Peek(store, field))
    {
      var fails := Access();
      r := if fails then Err(VMREADFailed) else Ok(Peek(store, field));
    }

    method Write(field: u32, value: u64) returns (r: Result<()>)
      requires Valid()
      modifies this
      ensures Valid() && faulted == (old(faulted) || r.Err?)
      ensures r == if r.Err? then Err(VMWRITEFailed) else Ok(())
      ensures store == if r.Ok? then Poke(old(store), field, value) else old(store)
      ensures View(store) == if r.Ok? then With(View(old(store)), field, Fit(field, value)) else View(old(store))
    {
      hide View, With, Fit;
      PokeIsUpdate(store, field, value);
      var fails := Access();
      if fails {
        r := Err(VMWRITEFailed);
      } else {
        store := Poke(store, field, value);
        r := Ok(());
      }
    }
  }
}
