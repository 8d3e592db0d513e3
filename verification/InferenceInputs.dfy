/** InferenceInputsDatabase: the inputs of the last inferences, in a ring. */
module InferenceInputs {
  import opened Results

  /** The entry of the first slot that has the id. */
  function FirstWith<T>(slots: seq<(string, T)>, id: string): Option<T> {
    if slots == [] then None else if slots[0].0 == id then Some(slots[0].1) else FirstWith(slots[1..], id)
  }

  /** What the slots are after the given adds: entry `j` went to slot `j % capacity`, and empty slots have no id. */
  ghost predicate HoldsLast<T>(slots: seq<(string, T)>, history: seq<(string, T)>) {
    && (forall j :: 0 <= j < |history| && |history| - |slots| <= j ==> slots[j % |slots|] == history[j])
    && (forall i :: |history| <= i < |slots| ==> slots[i].0 == "")
  }

  /** One more entry overwrites the oldest one. */
  lemma OneMore<T>(slots: seq<(string, T)>, history: seq<(string, T)>, entry: (string, T))
    requires slots != [] && HoldsLast(slots, history)
    ensures HoldsLast(slots[|history| % |slots| := entry], history + [entry])
  {
    var n, k := |history|, |slots|;
    var after := slots[n % k := entry];
    forall j | 0 <= j < n + 1 && n + 1 - k <= j ensures after[j % k] == (history + [entry])[j] {
      if j < n {
        DifferentSlots(j, n, k);
      }
    }
    if n < k {
      SmallModulo(n, k);
    }
  }

  lemma SmallModulo(n: nat, k: nat)
    requires n < k
    ensures n % k == n
  {
  }

  /** Fewer than `k` entries apart, two entries are in different slots. */
  lemma DifferentSlots(i: nat, j: nat, k: nat)
    requires i < j < i + k
    ensures i % k != j % k
  {
    var p, q := i / k, j / k;
    Quotient(i, k);
    Quotient(j, k);
    if q <= p {
      Multiples(q, p, k);
    } else {
      Further(p, q, k);
    }
  }

  lemma Quotient(n: nat, k: nat)
    requires k > 0
    ensures n == (n / k) * k + n % k && 0 <= n % k < k && n / k >= 0
  {
  }

  lemma Multiples(a: nat, b: nat, k: nat)
    requires a <= b
    ensures a * k <= b * k
  {
  }

  lemma Further(a: nat, b: nat, k: nat)
    requires a < b
    ensures a * k + k <= b * k
  {
    Multiples(a + 1, b, k);
    assert (a + 1) * k == a * k + k;
  }

  ghost predicate Distinct<T>(history: seq<(string, T)>) {
    forall i, j :: 0 <= i < j < |history| ==> history[i].0 != history[j].0
  }

  lemma {:induction false} FirstWithAt<T>(slots: seq<(string, T)>, id: string, i: nat)
    requires i < |slots| && slots[i].0 == id && forall k :: 0 <= k < i ==> slots[k].0 != id
    ensures FirstWith(slots, id) == Some(slots[i].1)
  {
    if i > 0 {
      FirstWithAt(slots[1..], id, i - 1);
    }
  }

  lemma {:induction false} FirstWithNone<T>(slots: seq<(string, T)>, id: string)
    requires forall k :: 0 <= k < |slots| ==> slots[k].0 != id
    ensures FirstWith(slots, id) == None
  {
    if slots != [] {
      FirstWithNone(slots[1..], id);
    }
  }

  /** The last of `n` entries that goes to slot `i`. */
  function LastFor(n: nat, k: nat, i: nat): int
    requires k > 0
  {
    var last := (n - 1) % k;
    if i <= last then n - 1 - (last - i) else n - 1 - (last + k - i)
  }

  /** Every slot is empty or holds one of the last entries. */
  lemma SlotIsFrom<T>(slots: seq<(string, T)>, history: seq<(string, T)>, i: nat) returns (j: nat)
    requires HoldsLast(slots, history) && i < |slots| && i < |history|
    ensures j < |history| && |history| - |slots| <= j && j % |slots| == i && slots[i] == history[j]
  {
    hide LastFor;
    LastInSlot(|history|, |slots|, i);
    j := LastFor(|history|, |slots|, i);
  }

  lemma LastInSlot(n: nat, k: nat, i: nat)
    requires 0 < k && i < k && i < n
    ensures var j := LastFor(n, k, i); 0 <= j < n && n - k <= j && j % k == i
  {
    var last, q := (n - 1) % k, (n - 1) / k;
    Quotient(n - 1, k);
    if i <= last {
      ModuloOf(q, k, i);
    } else {
      EarlierTurn(n, k, q, last, i);
    }
  }

  lemma EarlierTurn(n: nat, k: nat, q: nat, last: nat, i: nat)
    requires last < i < k && i < n && n - 1 == q * k + last
    ensures n - 1 - (last + k - i) >= 0 && (n - 1 - (last + k - i)) % k == i
  {
    if q > 0 {
      Further(q - 1, q, k);
      assert q * k == (q - 1) * k + k;
      ModuloOf(q - 1, k, i);
    }
  }

  lemma ModuloOf(q: nat, k: nat, i: nat)
    requires i < k
    ensures (q * k + i) % k == i
  {
    var x := q * k + i;
    var p, r := x / k, x % k;
    assert p * k + r == q * k + i;
    if p < q {
      Further(p, q, k);
    } else if q < p {
      Further(q, p, k);
    }
  }

  /** Any of the last entries is found under its id, any older one is not. */
  lemma LookupExact<T>(slots: seq<(string, T)>, history: seq<(string, T)>, j: nat)
    requires slots != [] && HoldsLast(slots, history) && Distinct(history)
    requires j < |history| && history[j].0 != ""
    ensures FirstWith(slots, history[j].0) == if |history| - |slots| <= j then Some(history[j].1) else None
  {
    var id, k := history[j].0, |slots|;
    forall i | 0 <= i < k && slots[i].0 == id ensures |history| - k <= j && i == j % k {
      var h := SlotIsFrom(slots, history, i);
      assert history[h].0 == history[j].0;
    }
    if |history| - k <= j {
      FirstWithAt(slots, id, j % k);
    } else {
      FirstWithNone(slots, id);
    }
  }

  /** The first slot that holds the id. */
  function FirstSlot<T>(slots: seq<(string, T)>, id: string): (slot: Option<nat>)
    ensures slot.Some? ==> slot.value < |slots| && slots[slot.value].0 == id
    ensures forall i :: 0 <= i < (if slot.Some? then slot.value else |slots|) ==> slots[i].0 != id
  {
    FirstSlotFrom(slots, id, 0)
  }

  function FirstSlotFrom<T>(slots: seq<(string, T)>, id: string, from: nat): (slot: Option<nat>)
    requires from <= |slots| && forall i :: 0 <= i < from ==> slots[i].0 != id
    ensures slot.Some? ==> slot.value < |slots| && slots[slot.value].0 == id
    ensures forall i :: 0 <= i < (if slot.Some? then slot.value else |slots|) ==> slots[i].0 != id
    decreases |slots| - from
  {
    if from == |slots| then None
    else if slots[from].0 == id then Some(from)
    else FirstSlotFrom(slots, id, from + 1)
  }

  /** The entry is one of the last, and comes under the id. */
  predicate Retained<T>(slots: seq<(string, T)>, history: seq<(string, T)>, i: nat, id: string) {
    i < |history| && |history| - |slots| <= i && history[i].0 == id
  }

  function SlotOf(i: nat, k: nat): (slot: nat)
    requires k > 0
    ensures slot < k
  {
    i % k
  }

  lemma RetainedAt<T>(slots: seq<(string, T)>, history: seq<(string, T)>, id: string)
    requires slots != [] && HoldsLast(slots, history)
    ensures forall i: nat :: Retained(slots, history, i, id) ==> slots[SlotOf(i, |slots|)] == history[i]
  {
  }

  lemma HolderRetained<T>(slots: seq<(string, T)>, history: seq<(string, T)>, slot: nat) returns (h: nat)
    requires HoldsLast(slots, history) && slot < |slots| && slots[slot].0 != ""
    ensures Retained(slots, history, h, slots[slot].0) && SlotOf(h, |slots|) == slot
  {
    h := SlotIsFrom(slots, history, slot);
  }

  /**
   * Whatever ids were added, and however often: a retained entry is the one found under its id exactly when no other
   * retained entry of that id has gone to an earlier slot.
   */
  lemma RepeatedExact<T>(slots: seq<(string, T)>, history: seq<(string, T)>, j: nat)
    requires slots != [] && HoldsLast(slots, history) && j < |history| && history[j].0 != ""
    requires Retained(slots, history, j, history[j].0)
    ensures var id, k := history[j].0, |slots|;
      && (FirstSlot(slots, id) == Some(SlotOf(j, k)) <==>
          forall i: nat :: Retained(slots, history, i, id) ==> SlotOf(j, k) <= SlotOf(i, k))
      && (FirstSlot(slots, id) == Some(SlotOf(j, k)) ==> FirstWith(slots, id) == Some(history[j].1))
  {
    hide HoldsLast, SlotOf, Retained, FirstWith;
    var id, k := history[j].0, |slots|;
    var slot := FirstSlot(slots, id);
    RetainedAt(slots, history, id);
    RetainedIds(slots, history, id);
    assert slots[SlotOf(j, k)] == history[j];
    var h := HolderRetained(slots, history, slot.value);
    if slot == Some(SlotOf(j, k)) {
      FirstWithAt(slots, id, SlotOf(j, k));
    }
  }

  lemma RetainedIds<T>(slots: seq<(string, T)>, history: seq<(string, T)>, id: string)
    ensures forall i: nat :: Retained(slots, history, i, id) ==> i < |history| && history[i].0 == id
  {
  }

  /** An id is found exactly when an entry of it is retained. */
  lemma FoundExact<T>(slots: seq<(string, T)>, history: seq<(string, T)>, id: string)
    requires slots != [] && HoldsLast(slots, history) && id != ""
    ensures FirstWith(slots, id).Some? <==> exists i: nat :: Retained(slots, history, i, id)
  {
    hide HoldsLast, SlotOf, Retained, FirstWith;
    var slot := FirstSlot(slots, id);
    RetainedAt(slots, history, id);
    RetainedIds(slots, history, id);
    assert forall i: nat :: Retained(slots, history, i, id) ==> slots[SlotOf(i, |slots|)].0 == id;
    if slot.Some? {
      FirstWithAt(slots, id, slot.value);
      var h := HolderRetained(slots, history, slot.value);
    } else {
      FirstWithNone(slots, id);
    }
  }

  /** An id added again can be found with its older inputs. */
  lemma RepeatedIdFindsOlder(x: int, y: int, z: int)
    requires x != z
    ensures var history := [("a", x), ("b", y), ("a", z)];
      HoldsLast(history, history) && FirstWith(history, "a") == Some(x)
  {
    var history := [("a", x), ("b", y), ("a", z)];
    forall j | 0 <= j < 3 ensures history[j % 3] == history[j] {
      SmallModulo(j, 3);
    }
  }

  class InferenceInputsDatabase<T> {
    const inputs: array<T>
    const inferIds: array<string>
    var overWriteIndex: nat
    /** All entries ever added. */
    ghost var history: seq<(string, T)>

    constructor (maxInferencesSaved: nat, empty: T)
      ensures Valid() && fresh(inputs) && fresh(inferIds) && history == [] && inferIds.Length == maxInferencesSaved
    {
      inputs := new T[maxInferencesSaved](i => empty);
      inferIds := new string[maxInferencesSaved](i => "");
      overWriteIndex, history := 0, [];
    }

    ghost function Slots(): (slots: seq<(string, T)>)
      reads this, inputs, inferIds
      requires inputs.Length == inferIds.Length
      ensures |slots| == inferIds.Length
    {
      seq(inferIds.Length, i requires 0 <= i < inferIds.Length reads this, inputs, inferIds => (inferIds[i], inputs[i]))
    }

    ghost predicate Valid()
      reads this, inputs, inferIds
    {
      && inputs.Length == inferIds.Length && (inputs as object) != inferIds
      && (inferIds.Length > 0 ==> overWriteIndex == |history| % inferIds.Length && HoldsLast(Slots(), history))
    }

    method AddInput(inferId: string, preprocessorInputs: T)
      requires Valid()
      modifies this, inputs, inferIds
      ensures Valid()
      ensures history == if inferIds.Length == 0 then old(history) else old(history) + [(inferId, preprocessorInputs)]
    {
      if inferIds.Length == 0 {
        return;
      }
      hide HoldsLast;
      ghost var before, slot := Slots(), overWriteIndex;
      ghost var after := before[slot := (inferId, preprocessorInputs)];
      ghost var extended := history + [(inferId, preprocessorInputs)];
      OneMore(before, history, (inferId, preprocessorInputs));
      assert HoldsLast(after, extended);
      NextIndex(|history|, inferIds.Length);
      inputs[overWriteIndex] := preprocessorInputs;
      inferIds[overWriteIndex] := inferId;
      overWriteIndex := (overWriteIndex + 1) % inferIds.Length;
      history := extended;
      assert Slots() == after;
    }

    method GetInputs(inferId: string) returns (r: Option<T>)
      requires Valid()
      ensures r == FirstWith(Slots(), inferId)
    {
      ghost var slots := Slots();
      for i := 0 to inferIds.Length
        invariant forall k :: 0 <= k < i ==> slots[k].0 != inferId
      {
        if inferIds[i] == inferId {
          FirstWithAt(slots, inferId, i);
          return Some(inputs[i]);
        }
      }
      FirstWithNone(slots, inferId);
      return None;
    }
  }

  lemma NextIndex(n: nat, k: nat)
    requires k > 0
    ensures (n % k + 1) % k == (n + 1) % k
  {
    var q, r := n / k, n % k;
    assert n + 1 == q * k + (r + 1);
    if r + 1 < k {
      ModuloOf(q, k, r + 1);
      SmallModulo(r + 1, k);
    } else {
      assert (q + 1) * k == q * k + k;
      ModuloOf(q + 1, k, 0);
    }
  }
}
