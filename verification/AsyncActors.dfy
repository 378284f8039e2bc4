// The bookkeeping of the trajectory collector and of the driver as they are programmed,
// each method proved against the step of the state machine it implements.
module AsyncActors {
  import opened Prelude
  import opened ReplayGroups
  import opened AsyncResume

  /** The largest ordinal a filter with this threshold and covered set could still drop. */
  ghost predicate IsHorizon(horizon: int, cut: nat, covered: set<nat>) {
    && cut - 1 <= horizon && (forall o :: o in covered ==> o <= horizon)
    && (horizon == cut - 1 || exists o :: o in covered && o == horizon)
  }

  class Collector {
    var nextOrdinal: nat
    var loader: nat
    var aligned: bool
    var ring: seq<Snapshot>
    var filter: Option<nat>
    var covered: set<nat>
    var horizon: int
    var pending: seq<Stamp>
    var inflight: seq<Group>
    const ringSize: nat

    ghost predicate Valid()
      reads this
    {
      && ringSize >= 1 && |ring| <= ringSize
      && (filter.Some? ==> IsHorizon(horizon, filter.value, covered))
    }

    ghost predicate Represents(l: Live)
      reads this
    {
      && nextOrdinal == l.nextOrdinal && loader == l.loader && aligned == l.aligned && ring == l.ring
      && filter == l.filter && covered == l.covered && pending == l.pending && inflight == l.inflight
    }

    /** A collector as a restart builds it from the frontier metadata. */
    constructor (base: nat, loader: nat, cut: nat, coveredOrdinals: seq<nat>, ringSize: nat)
      requires ringSize >= 1
      ensures Valid() && this.ringSize == ringSize
      ensures nextOrdinal == base && this.loader == loader && aligned && ring == [] && filter == Some(cut)
      ensures covered == (set o | o in coveredOrdinals) && pending == [] && inflight == []
    {
      nextOrdinal, this.loader, aligned, ring, filter := base, loader, true, [], Some(cut);
      pending, inflight, this.ringSize := [], [], ringSize;
      covered := set o | o in coveredOrdinals;
      horizon := cut - 1;
      new;
      var i := 0;
      while i < |coveredOrdinals|
        invariant 0 <= i <= |coveredOrdinals|
        invariant nextOrdinal == base && this.loader == loader && aligned && ring == [] && filter == Some(cut)
        invariant covered == (set o | o in coveredOrdinals) && pending == [] && inflight == []
        invariant cut - 1 <= horizon && forall j :: 0 <= j < i ==> coveredOrdinals[j] <= horizon
        invariant horizon == cut - 1 || exists j :: 0 <= j < i && coveredOrdinals[j] == horizon
      {
        if horizon < coveredOrdinals[i] {
          horizon := coveredOrdinals[i];
        }
        i := i + 1;
      }
      assert forall j :: 0 <= j < i ==> coveredOrdinals[j] in covered;
    }

    /** `_stamp_task_indices` on a batch of `n` prompts. */
    method StampBatch(n: nat, ghost l: Live) returns (stamps: seq<Stamp>)
      requires Valid() && Represents(l)
      modifies this`nextOrdinal, this`loader
      ensures stamps == NewStamps(l, n)
      ensures nextOrdinal == l.nextOrdinal + n && loader == l.loader + n
    {
      stamps := [];
      var offset := 0;
      while offset < n
        invariant 0 <= offset <= n
        invariant nextOrdinal == l.nextOrdinal && loader == l.loader
        invariant stamps == NewStamps(l, offset)
      {
        stamps := stamps + [Stamp(nextOrdinal + offset, loader + offset)];
        offset := offset + 1;
      }
      nextOrdinal := nextOrdinal + n;
      loader := loader + n;
    }

    /** `_filter_covered_rows`: past the horizon the filter is switched off for good. */
    method FilterBatch(stamps: seq<Stamp>) returns (kept: seq<Stamp>)
      requires Valid() && stamps != []
      modifies this`filter, this`covered
      ensures Valid()
      ensures
        var off := old(filter.Some? && horizon < stamps[0].ordinal);
        && filter == (if off then None else old(filter))
        && covered == (if off then {} else old(covered))
        && kept == (if off then stamps else Survivors(old(filter), old(covered), stamps))
    {
      if filter == None {
        SurvivorsAll(covered, stamps);
        return stamps;
      }
      if horizon < stamps[0].ordinal {
        filter := None;
        covered := {};
        return stamps;
      }
      kept := [];
      var i := 0;
      while i < |stamps|
        invariant 0 <= i <= |stamps|
        invariant kept == Survivors(filter, covered, stamps[..i])
      {
        assert stamps[..i + 1][..i] == stamps[..i];
        if filter.value <= stamps[i].ordinal && stamps[i].ordinal !in covered {
          kept := kept + [stamps[i]];
        }
        i := i + 1;
      }
      assert stamps[..i] == stamps;
    }

    /** The deque of snapshots drops its oldest entry when it is full. */
    method Remember(s: Snapshot)
      requires Valid()
      modifies this`ring
      ensures Valid() && ring == Trim(old(ring) + [s], ringSize)
    {
      ring := ring + [s];
      if |ring| > ringSize {
        ring := ring[1..];
      }
    }

    /** One pull of the collection loop: snapshot, stamp, filter, hold as pending. */
    method Pull(c: Settings, n: nat, ghost l: Live)
      requires Valid() && Represents(l) && c.ringSize == ringSize && pending == [] && n >= 1
      modifies this
      ensures Valid() && Represents(YieldOf(c, l, n))
    {
      var before := Snapshot(nextOrdinal, loader);
      var stamps := StampBatch(n, l);
      Remember(before);
      assert stamps[0].ordinal == l.nextOrdinal;
      assert filter.Some? ==> (horizon < l.nextOrdinal <==> PastHorizon(l));
      var kept := FilterBatch(stamps);
      pending := kept;
    }

    /** The cut of `get_checkpoint_state`. */
    method Cut(frontier: nat, held: seq<Group>, ghost l: Live) returns (cut: nat)
      requires Represents(l) && l.frontier == frontier && l.buffer == held
      ensures cut == CutOf(l)
    {
      cut := frontier;
      var i := 0;
      while i < |inflight|
        invariant 0 <= i <= |inflight|
        invariant cut == LowerTo(frontier, inflight[..i])
      {
        assert inflight[..i + 1][..i] == inflight[..i];
        if inflight[i].ordinal < cut {
          cut := inflight[i].ordinal;
        }
        i := i + 1;
      }
      assert inflight[..i] == inflight;
      ghost var low := cut;
      i := 0;
      while i < |held|
        invariant 0 <= i <= |held|
        invariant cut == LowerTo(low, held[..i])
      {
        assert held[..i + 1][..i] == held[..i];
        if held[i].ordinal < cut {
          cut := held[i].ordinal;
        }
        i := i + 1;
      }
      assert held[..i] == held;
    }

    /** The search of `get_checkpoint_dataloader_state`. */
    method NewestSnapshot(cut: nat) returns (best: Option<Snapshot>)
      ensures best == Newest(ring, cut)
    {
      best := None;
      var i := 0;
      while i < |ring|
        invariant 0 <= i <= |ring|
        invariant best == Newest(ring[..i], cut)
      {
        assert ring[..i + 1][..i] == ring[..i];
        if ring[i].base <= cut && (best.None? || ring[i].base > best.value.base) {
          best := Some(ring[i]);
        }
        i := i + 1;
      }
      assert ring[..i] == ring;
    }
  }

  lemma {:induction false} SurvivorsAll(covered: set<nat>, ps: seq<Stamp>)
    ensures Survivors(None, covered, ps) == ps
  {
    if ps != [] {
      var init, last := ps[..|ps| - 1], ps[|ps| - 1];
      SurvivorsAll(covered, init);
      assert Survives(None, covered, last.ordinal);
      assert Survivors(None, covered, ps) == init + [last] == ps;
    }
  }

  class Driver {
    var frontier: nat
    var recent: set<nat>

    /** A restart takes the saved cut as its frontier, and the trained ordinals above it. */
    constructor (cut: nat, trainedAbove: set<nat>)
      ensures frontier == cut && recent == trainedAbove
    {
      frontier, recent := cut, trainedAbove;
    }

    /** Advance the trained frontier and the trained set from the sampled groups. */
    method RecordTrained(items: seq<Group>)
      modifies this
      ensures frontier == RaiseTo(old(frontier), items)
      ensures recent == old(recent) + OrdinalSet(items)
    {
      var i := 0;
      while i < |items|
        invariant 0 <= i <= |items|
        invariant frontier == RaiseTo(old(frontier), items[..i])
        invariant recent == old(recent) + OrdinalSet(items[..i])
      {
        assert items[..i + 1][..i] == items[..i];
        assert items[..i + 1] == items[..i] + [items[i]];
        assert OrdinalSet(items[..i + 1]) == OrdinalSet(items[..i]) + {items[i].ordinal};
        if frontier < items[i].ordinal + 1 {
          frontier := items[i].ordinal + 1;
        }
        recent := recent + {items[i].ordinal};
        i := i + 1;
      }
      assert items[..i] == items;
    }

    /** Prune below the cut; what stays is what the checkpoint stores. */
    method Prune(cut: nat) returns (trainedAbove: set<nat>)
      modifies this`recent
      ensures recent == trainedAbove == Above(old(recent), cut)
    {
      recent := set o | o in recent && cut <= o;
      trainedAbove := recent;
    }
  }
}
