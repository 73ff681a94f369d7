/** The memory system of the simulator as it runs: the controllers' static state, the tag and
    data RAMs and external memory, changed in place one bus cycle at a time. */
module CacheUnit {
  import opened Word32
  import opened MainMemory
  import opened CacheBus
  import opened CacheRefinement

  /** The bus unit drives its stall line afresh in every cycle. */
  lemma BiuIgnoresStall(s: Sys, cfg: Config, r: Request)
    requires BusRunnable(s, cfg, r)
    ensures Biu(s, cfg, r) == Biu(s.(biustall := false), cfg, r)
  {
  }

  /** The controller drives its signals afresh in every cycle. */
  lemma SignalsDrivenAfresh(s: Sys, cfg: Config, r: Request)
    requires Runnable(s, cfg, r)
    ensures Iodecode(s, cfg, r) == Iodecode(s.(cachestall := false, external := false), cfg, r)
  {
    hide Biu, BlockHit, SubBlockPresent, Settle;
    assert Prepare(s, cfg, r) == Prepare(s.(cachestall := false, external := false), cfg, r);
  }

  /** A read or write of a cached address, by what the tag RAM says. */
  lemma {:induction false} CachedPath(s: Sys, cfg: Config, r: Request)
    requires Runnable(s, cfg, r) && s.cstate.Local? && s.main.Covers(r.abus) && cfg.Cached(r.abus)
    ensures r.read && !BlockHit(s.lines, r.abus) ==> PathOf(s, cfg, r) == BlockMiss
    ensures r.read && BlockHit(s.lines, r.abus) && !SubBlockPresent(s.lines, r.abus) ==> PathOf(s, cfg, r) == SubBlockMiss
    ensures !r.read && Hit(s.lines, r.abus) ==> PathOf(s, cfg, r) == WriteHit
    ensures !r.read || !Hit(s.lines, r.abus) ==> !PathOf(s, cfg, r).ReadHit?
  {
    hide BlockHit, SubBlockPresent, Config.Cached, Main.Covers;
  }

  lemma {:induction false} StallingPrepares(s: Sys, cfg: Config, r: Request)
    requires Runnable(s, cfg, r) && PathOf(s, cfg, r) in {BlockMiss, SubBlockMiss, WriteHit}
    ensures Prepare(s, cfg, r) == s.(cachestall := true, external := true)
  {
    hide PathOf, Runnable;
  }

  class MemorySystem {
    const cfg: Config
    const lowtop: Word
    const highbottom: int
    const lowmem: array<Word>
    const highmem: array<Word>
    const tagram: array<Line>
    const dataram: array<Word>

    // The access presented by the datapath, and what a device outside memory answers
    var abus: Word
    var read: bool
    var bytemode: bool
    var dbus: Word
    var device: Word

    var cstate: CacheState
    var oldcachedata: Word
    var wrcachemask: Mask
    var cachestall: bool
    var externalaccess: bool

    var bstate: BusState
    var count: nat
    var portaddr: Word
    var portvalue: Word
    var portio: Port
    var busidle: bool
    var biustall: bool

    ghost predicate Valid()
      reads this
    {
      && cfg.Valid() && tagram.Length == LINES && dataram.Length == CELLS
      && lowmem != highmem && lowmem != dataram && highmem != dataram
      && 0x3000_0000 <= highbottom <= TWO32 && highbottom % 4 == 0 && lowtop < highbottom
      && lowmem.Length == lowtop / 4 + 1 && highmem.Length == (TWO32 - highbottom) / 4
    }

    ghost function Arrays(): set<object> {
      var rams: set<object> := {lowmem, highmem, dataram};
      rams + {tagram}
    }

    ghost function Memory(): Main
      reads lowmem, highmem
    {
      Main(lowtop, highbottom, lowmem[..], highmem[..])
    }

    /** The joint state of the two controllers and what they control. */
    ghost function Snap(): Sys
      reads this, lowmem, highmem, tagram, dataram
    {
      Sys(cstate, bstate, count, portaddr, portvalue, portio, busidle, oldcachedata, wrcachemask,
          tagram[..], dataram[..], Memory(), dbus, biustall, cachestall, externalaccess)
    }

    /** The access presented now; the data bus is part of it only for a store. */
    ghost function Presented(): Request
      reads this
    {
      Request(abus, read, bytemode, if read then 0 else dbus, device)
    }

    /** Power-up: the tag RAM is empty, the bus idle; data RAM and memory hold anything. */
    constructor (cfg: Config, lowtop: Word, highbottom: int)
      requires cfg.Valid()
      requires 0x3000_0000 <= highbottom <= TWO32 && highbottom % 4 == 0 && lowtop < highbottom
      ensures Valid() && Quiescent(Snap(), cfg) && this.cfg == cfg
      ensures fresh(lowmem) && fresh(highmem) && fresh(tagram) && fresh(dataram)
    {
      this.cfg := cfg;
      this.lowtop := lowtop;
      this.highbottom := highbottom;
      lowmem := new Word[lowtop / 4 + 1];
      highmem := new Word[(TWO32 - highbottom) / 4];
      tagram := new Line[LINES](i => Line(0, {}));
      dataram := new Word[CELLS];
      abus, read, bytemode, dbus, device := 0, true, false, 0, 0;
      cstate, oldcachedata, wrcachemask := Local, 0, WholeCell;
      cachestall, externalaccess := false, false;
      bstate, count, portaddr, portvalue, portio := Idle, 0, 0, 0, Rd;
      busidle, biustall := true, false;
      new;
      EmptyIsQuiescent(Snap(), cfg);
    }

    /** The datapath presents an access; a store drives the data bus. */
    method Face(abus: Word, read: bool, bytemode: bool, data: Word, device: Word)
      modifies this`abus, this`read, this`bytemode, this`dbus, this`device
      ensures Presented() == Request(abus, read, bytemode, if read then 0 else data, device)
      ensures Snap() == old(Snap()).(dbus := if read then old(dbus) else data) && dbus == Snap().dbus && this.read == read
    {
      this.abus, this.read, this.bytemode, this.device := abus, read, bytemode, device;
      if !read {
        dbus := data;
      }
    }

    method Startexternal()
      modifies this
      ensures Snap() == StartExternal(old(Snap()), old(Presented())) && Presented() == old(Presented())
    {
      portaddr := abus;
      busidle := false;
      if read {
        portio := if bytemode then RdByte else Rd;
      } else {
        portio := if bytemode then WrByte else Wr;
        portvalue := dbus;
      }
    }

    method Endexternal()
      requires Valid() && Memory().Covers(portaddr)
      modifies this, lowmem, highmem
      ensures Snap() == EndExternal(old(Snap())) && Presented() == old(Presented())
    {
      match portio {
        case Wr => Storeexternal(portaddr, portvalue);
        case WrByte => Storeexternalbyte(portaddr, portvalue);
        case _ => portvalue := if portaddr <= lowtop then lowmem[portaddr / 4] else highmem[(portaddr - highbottom) / 4];
      }
    }

    method Storeexternal(addr: Word, value: Word)
      requires Valid() && Memory().Covers(addr)
      modifies lowmem, highmem
      ensures Memory() == old(Memory()).Store(addr, value)
    {
      if addr <= lowtop {
        lowmem[addr / 4] := value;
      } else {
        highmem[(addr - highbottom) / 4] := value;
      }
    }

    method Storeexternalbyte(addr: Word, value: Word)
      requires Valid() && Memory().Covers(addr)
      modifies lowmem, highmem
      ensures Memory() == old(Memory()).StoreByte(addr, value)
    {
      hide PutByte;
      if addr <= lowtop {
        lowmem[addr / 4] := PutByte(lowmem[addr / 4], addr % 4, value % 256);
      } else {
        highmem[(addr - highbottom) / 4] := PutByte(highmem[(addr - highbottom) / 4], addr % 4, value % 256);
      }
    }

    /** The bus cycle that takes a new access, or finds none. */
    method BiuFirst()
      requires Valid() && BusRunnable(Snap(), cfg, Presented()) && bstate.First? && !biustall
      modifies this, lowmem, highmem
      ensures Snap() == CacheBus.Biu(old(Snap()), cfg, old(Presented())) && Presented() == old(Presented())
    {
      hide EndExternal, Main.Fetch, Main.Store, Main.StoreByte;
      Startexternal();
      if externalaccess {
        if cfg.Waits(abus) != WAITSPECIAL {
          count := cfg.Waits(abus) + 1;
          if read {
            biustall := true;
            bstate := ReadCount;
          } else {
            bstate := WriteCount;
          }
        } else {
          Endexternal();
        }
      } else {
        bstate := BusState.Idle;
      }
    }

    /** A bus cycle of an idle bus. */
    method BiuIdle()
      requires Valid() && BusRunnable(Snap(), cfg, Presented()) && bstate.Idle? && !biustall
      modifies this
      ensures Snap() == CacheBus.Biu(old(Snap()), cfg, old(Presented())) && Presented() == old(Presented())
    {
      busidle := true;
      if externalaccess {
        biustall := true;
        bstate := First;
      }
    }

    /** A bus cycle of a read under way. */
    method BiuRead()
      requires Valid() && BusRunnable(Snap(), cfg, Presented()) && !biustall && bstate.ReadCount?
      modifies this, lowmem, highmem
      ensures Snap() == CacheBus.Biu(old(Snap()), cfg, old(Presented())) && Presented() == old(Presented())
    {
      hide EndExternal, Main.Fetch, Main.Store, Main.StoreByte, Config.Waits;
      count := count - 1;
      if count != 0 {
        biustall := true;
      } else {
        Endexternal();
        bstate := First;
      }
    }

    /** A bus cycle of the buffered write. */
    method BiuWrite()
      requires Valid() && BusRunnable(Snap(), cfg, Presented()) && !biustall && bstate.WriteCount?
      modifies this, lowmem, highmem
      ensures Snap() == CacheBus.Biu(old(Snap()), cfg, old(Presented())) && Presented() == old(Presented())
    {
      hide EndExternal, Main.Fetch, Main.Store, Main.StoreByte, Config.Waits;
      count := count - 1;
      biustall := externalaccess;
      if count == 0 {
        Endexternal();
        bstate := First;
      }
    }

    /** One cycle of the bus unit. */
    method Biu()
      requires Valid() && BusRunnable(Snap(), cfg, Presented())
      modifies this, lowmem, highmem
      ensures Snap() == CacheBus.Biu(old(Snap()), cfg, old(Presented())) && Presented() == old(Presented())
    {
      BiuIgnoresStall(Snap(), cfg, Presented());
      hide CacheBus.Biu;
      biustall := false;
      match bstate {
        case First => BiuFirst();
        case ReadCount => BiuRead();
        case WriteCount => BiuWrite();
        case Idle => BiuIdle();
      }
    }

    /** The bus unit's cycle of an access that the cache holds up. */
    method StartStalled()
      requires Valid() && Runnable(Snap(), cfg, Presented()) && Memory().Covers(abus)
      modifies this, lowmem, highmem
      ensures BusRunnable(old(Snap()).(cachestall := true, external := true), cfg, old(Presented()))
      ensures Snap() == CacheBus.Biu(old(Snap()).(cachestall := true, external := true), cfg, old(Presented()))
      ensures Presented() == old(Presented())
    {
      hide CacheBus.Biu;
      cachestall, externalaccess := true, true;
      Biu();
    }

    /** The old cell and the bytes of it that the write replaces. */
    method HoldOld()
      requires Valid()
      modifies this`oldcachedata, this`wrcachemask
      ensures Snap() == old(Snap()).(oldCached := dataram[DataIndex(abus)],
                                     mask := if bytemode then OneByte(abus % 4) else WholeCell)
    {
      hide DataIndex;
      oldcachedata, wrcachemask := dataram[DataIndex(abus)], if bytemode then OneByte(abus % 4) else WholeCell;
    }

    /** A read that finds no cell in the cache: it will fill one. */
    method LocalReadMiss(blockhit: bool)
      requires Valid() && Runnable(Snap(), cfg, Presented()) && cstate.Local? && !externalaccess && !cachestall
      requires read && Memory().Covers(abus) && cfg.Cached(abus) && !Hit(tagram[..], abus)
      requires blockhit == BlockHit(tagram[..], abus)
      modifies this, lowmem, highmem
      ensures var s := old(Snap());
              var r := old(Presented());
              Snap() == Settle(PathOf(s, cfg, r), CacheBus.Biu(Prepare(s, cfg, r), cfg, r), r)
      ensures Presented() == old(Presented())
    {
      CachedPath(Snap(), cfg, Presented());
      StallingPrepares(Snap(), cfg, Presented());
      hide CacheBus.Biu, DataIndex, Config.Cached, BlockHit, SubBlockPresent, Prepare, PathOf, Config.Waits;
      StartStalled();
      dbus := portvalue;
      cstate := if !blockhit then NewBlock else NewData;
    }

    /** A write that finds its cell in the cache: the line is updated later. */
    method LocalWriteHit()
      requires Valid() && Runnable(Snap(), cfg, Presented()) && cstate.Local? && !externalaccess && !cachestall
      requires !read && Memory().Covers(abus) && cfg.Cached(abus) && Hit(tagram[..], abus)
      modifies this, lowmem, highmem
      ensures var s := old(Snap());
              var r := old(Presented());
              Snap() == Settle(PathOf(s, cfg, r), CacheBus.Biu(Prepare(s, cfg, r), cfg, r), r)
      ensures Presented() == old(Presented())
    {
      CachedPath(Snap(), cfg, Presented());
      StallingPrepares(Snap(), cfg, Presented());
      hide CacheBus.Biu, DataIndex, Config.Cached, BlockHit, SubBlockPresent, Prepare, PathOf, Config.Waits;
      StartStalled();
      HoldOld();
      cstate := if biustall then ReplaceDataWait else ReplaceData;
    }

    /** The cycle that starts an access to external memory. */
    method LocalMemory()
      requires Valid() && Runnable(Snap(), cfg, Presented()) && cstate.Local? && !externalaccess && !cachestall
      requires Memory().Covers(abus)
      modifies this, lowmem, highmem
      ensures var s := old(Snap());
              var r := old(Presented());
              Snap() == Settle(PathOf(s, cfg, r), CacheBus.Biu(Prepare(s, cfg, r), cfg, r), r)
      ensures Presented() == old(Presented())
    {
      hide CacheBus.Biu, DataIndex, Config.Cached;
      var line := tagram[Index(abus)];
      var blockhit := line.tag == TagOf(abus);
      var present := SubIndex(abus) in line.present;
      assert blockhit == BlockHit(tagram[..], abus) && present == SubBlockPresent(tagram[..], abus);
      hide BlockHit, SubBlockPresent, Index, SubIndex, TagOf;
      if cfg.Cached(abus) && read && blockhit && present {
        Biu();
        dbus := dataram[DataIndex(abus)];
      } else if cfg.Cached(abus) && read {
        LocalReadMiss(blockhit);
      } else if cfg.Cached(abus) && blockhit && present {
        LocalWriteHit();
      } else {
        externalaccess := true;
        Biu();
        if read { dbus := portvalue; }
      }
    }

    /** The cycle that starts an access through the tag backdoor. */
    method LocalBackdoor()
      requires Valid() && Runnable(Snap(), cfg, Presented()) && cstate.Local? && !externalaccess && !cachestall
      requires !Memory().Covers(abus) && TagBackdoor(abus)
      modifies this, lowmem, highmem
      ensures var s := old(Snap());
              var r := old(Presented());
              Snap() == Settle(PathOf(s, cfg, r), CacheBus.Biu(Prepare(s, cfg, r), cfg, r), r)
      ensures Presented() == old(Presented())
    {
      hide CacheBus.Biu, BlockHit, SubBlockPresent, Config.Cached, TagBackdoor;
      cachestall := true;
      Biu();
      cstate := Invalidate;
      if read { dbus := portvalue; }
    }

    /** The cycle of an access that is neither to memory nor to the tag backdoor. */
    method LocalElsewhere()
      requires Valid() && Runnable(Snap(), cfg, Presented()) && cstate.Local? && !externalaccess && !cachestall
      requires !Memory().Covers(abus) && !TagBackdoor(abus)
      modifies this, lowmem, highmem
      ensures var s := old(Snap());
              var r := old(Presented());
              Snap() == Settle(PathOf(s, cfg, r), CacheBus.Biu(Prepare(s, cfg, r), cfg, r), r)
      ensures Presented() == old(Presented())
    {
      hide CacheBus.Biu, BlockHit, SubBlockPresent, Config.Cached, TagBackdoor;
      Biu();
      if read { dbus := device; }
    }

    /** The cycle that starts an access, as the address decides. */
    method LocalCycle()
      requires Valid() && Runnable(Snap(), cfg, Presented()) && cstate.Local? && !externalaccess && !cachestall
      modifies this, lowmem, highmem
      ensures var s := old(Snap());
              var r := old(Presented());
              Snap() == Settle(PathOf(s, cfg, r), CacheBus.Biu(Prepare(s, cfg, r), cfg, r), r)
      ensures Presented() == old(Presented())
    {
      hide CacheBus.Biu, BlockHit, SubBlockPresent, Settle, Prepare, PathOf;
      if abus <= lowtop || abus >= highbottom {
        LocalMemory();
      } else if TagBackdoor(abus) {
        LocalBackdoor();
      } else {
        LocalElsewhere();
      }
    }

    /** Fills the addressed cell, once its sub-block is marked present. */
    method FillCycle(here: CacheState)
      requires Valid() && BusRunnable(Snap(), cfg, Presented()) && read
      modifies this, lowmem, highmem, dataram
      ensures var b := CacheBus.Biu(old(Snap()), cfg, old(Presented()));
              Snap() == b.(data := b.data[DataIndex(abus) := b.portvalue], dbus := b.portvalue,
                           cstate := if b.biustall then here else CacheState.Local)
      ensures Presented() == old(Presented())
    {
      hide CacheBus.Biu, DataIndex;
      Biu();
      cstate := if biustall then here else CacheState.Local;
      dbus := portvalue;
      dataram[DataIndex(abus)] := dbus;
    }

    /** Replaces the written bytes of the addressed cell. */
    method ReplaceCycle()
      requires Valid() && BusRunnable(Snap(), cfg, Presented()) && !read
      modifies this, lowmem, highmem, dataram
      ensures var b := CacheBus.Biu(old(Snap()), cfg, old(Presented()));
              Snap() == b.(data := b.data[DataIndex(abus) := Merge(b.oldCached, b.mask, dbus)])
      ensures Presented() == old(Presented())
    {
      hide CacheBus.Biu, DataIndex, Merge;
      Biu();
      dataram[DataIndex(abus)] := Merge(oldcachedata, wrcachemask, dbus);
    }

    method MarkPresent()
      requires Valid()
      modifies tagram
      ensures tagram[..] == AddToBlock(old(tagram[..]), abus)
    {
      var line := tagram[Index(abus)];
      tagram[Index(abus)] := Line(line.tag, line.present + {SubIndex(abus)});
    }

    /** Allocates the block of a read that missed it; repeated until the bus has the cell. */
    method NewBlockCycle()
      requires Valid() && Runnable(Snap(), cfg, Presented()) && cstate.NewBlock? && !externalaccess && !cachestall && read
      modifies this, lowmem, highmem, tagram, dataram
      ensures Snap() == CacheBus.Iodecode(old(Snap()), cfg, old(Presented()))
      ensures Presented() == old(Presented())
    {
      hide CacheBus.Biu, Merge, DataIndex, Index, SubIndex, TagOf, BlockHit, SubBlockPresent;
      externalaccess := true;
      tagram[Index(abus)] := Line(TagOf(abus), {SubIndex(abus)});
      FillCycle(NewBlock);
    }

    /** Adds the sub-block of a read that missed it; repeated until the bus has the cell. */
    method NewDataCycle()
      requires Valid() && Runnable(Snap(), cfg, Presented()) && cstate.NewData? && !externalaccess && !cachestall && read
      modifies this, lowmem, highmem, tagram, dataram
      ensures Snap() == CacheBus.Iodecode(old(Snap()), cfg, old(Presented()))
      ensures Presented() == old(Presented())
    {
      hide CacheBus.Biu, Merge, DataIndex, Index, SubIndex, TagOf, BlockHit, SubBlockPresent;
      externalaccess := true;
      MarkPresent();
      FillCycle(NewData);
    }

    /** Updates the line of a write that the bus has taken already. */
    method ReplaceDataCycle()
      requires Valid() && Runnable(Snap(), cfg, Presented()) && cstate.ReplaceData? && !externalaccess && !cachestall && !read
      modifies this, lowmem, highmem, tagram, dataram
      ensures Snap() == CacheBus.Iodecode(old(Snap()), cfg, old(Presented()))
      ensures Presented() == old(Presented())
    {
      hide CacheBus.Biu, Merge, DataIndex, Index, SubIndex, TagOf, BlockHit, SubBlockPresent;
      MarkPresent();
      ReplaceCycle();
      cstate := CacheState.Local;
    }

    /** Updates the line of a write that the bus has yet to take. */
    method ReplaceDataWaitCycle()
      requires Valid() && Runnable(Snap(), cfg, Presented()) && cstate.ReplaceDataWait? && !externalaccess && !cachestall && !read
      modifies this, lowmem, highmem, tagram, dataram
      ensures Snap() == CacheBus.Iodecode(old(Snap()), cfg, old(Presented()))
      ensures Presented() == old(Presented())
    {
      hide CacheBus.Biu, Merge, DataIndex, Index, SubIndex, TagOf, BlockHit, SubBlockPresent, AddToBlock;
      externalaccess := true;
      MarkPresent();
      ReplaceCycle();
      cstate := if biustall then ReplaceDataWait else CacheState.Local;
    }

    /** Deallocates a block through the tag backdoor. */
    method InvalidateCycle()
      requires Valid() && Runnable(Snap(), cfg, Presented()) && cstate.Invalidate? && !externalaccess && !cachestall
      modifies this, lowmem, highmem, tagram, dataram
      ensures Snap() == CacheBus.Iodecode(old(Snap()), cfg, old(Presented()))
      ensures Presented() == old(Presented())
    {
      hide CacheBus.Biu, Merge, DataIndex, Index, SubIndex, TagOf, BlockHit, SubBlockPresent;
      tagram[Index(abus)] := Line(TagOf(abus), {});
      Biu();
      cstate := CacheState.Local;
    }

    /** One cycle of the cache controller with the bus unit. */
    method Iodecode()
      requires Valid() && Runnable(Snap(), cfg, Presented())
      requires cstate.NewBlock? || cstate.NewData? ==> read
      requires cstate.ReplaceData? || cstate.ReplaceDataWait? ==> !read
      modifies this, lowmem, highmem, tagram, dataram
      ensures Snap() == CacheBus.Iodecode(old(Snap()), cfg, old(Presented()))
      ensures Presented() == old(Presented())
    {
      SignalsDrivenAfresh(Snap(), cfg, Presented());
      hide CacheBus.Biu, Settle, Prepare, CacheBus.PathOf;
      cachestall := false;
      externalaccess := false;
      match cstate {
        case Local => LocalCycle();
        case NewBlock => NewBlockCycle();
        case NewData => NewDataCycle();
        case ReplaceData => ReplaceDataCycle();
        case ReplaceDataWait => ReplaceDataWaitCycle();
        case Invalidate => InvalidateCycle();
      }
    }

    /** One access of the datapath from beginning to end: the cycle is repeated while either
        controller stalls it. */
    method Access() returns (stalls: nat)
      requires Valid() && Quiescent(Snap(), cfg) && Presented().Valid()
      modifies this, lowmem, highmem, tagram, dataram
      ensures Quiescent(Snap(), cfg) && Valid()
      ensures Drain(Snap()) == Apply(old(Drain(Snap())), old(Presented()))
      ensures read && (Memory().Covers(abus) || !TagBackdoor(abus)) ==> dbus == Answer(old(Drain(Snap())), old(Presented()))
      ensures stalls == Remaining(old(Snap()), cfg, old(Presented()))
      ensures Presented() == old(Presented())
    {
      ghost var r := Presented();
      ghost var s := Snap();
      ghost var m := Drain(s);
      stalls := 0;
      AccessBegins(s, cfg, r);
      var stalled := true;
      while stalled
        invariant Valid() && Presented() == r
        invariant stalled ==> During(Snap(), cfg, r, m) && stalls + Remaining(Snap(), cfg, r) == Remaining(s, cfg, r)
        invariant !stalled ==> Completed(Snap(), cfg, r, m) && stalls == Remaining(s, cfg, r)
        decreases if stalled then 1 + Remaining(Snap(), cfg, r) else 0
      {
        AccessCycle(Snap(), cfg, r, m);
        Iodecode();
        stalled := biustall || cachestall;
        if stalled {
          stalls := stalls + 1;
        }
      }
    }
  }
}
