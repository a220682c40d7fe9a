/**
 * Slots, the two slot catalogs, and the compatibility filter
 * `filteredSlots` (src/App.jsx:113-135).
 *
 * A choice in either select box is the composite string
 * `dateKey|timeKey` of a slot (src/App.jsx:180, 186). The filter keeps
 * the Visit-1 slots dated one day before the chosen Visit-2 date and the
 * Visit-2 slots dated one day after the chosen Visit-1 date.
 */
module Slots {
  import opened Calendar
  import opened DateKeys

  /**
   * One offered slot. The source keeps it as a positional array:
   * slot[0] id, slot[1] date label, slot[2] time label, slot[3] date key,
   * slot[4] time key.
   */
  datatype Slot = Slot(id: string, dateLabel: string, timeLabel: string, dateKey: string, timeKey: string)

  /**
   * Two ordered slot lists, one per visit: the catalog `{ visit1, visit2 }`,
   * and also the filter's result `{ v1Filtered, v2Filtered }`.
   */
  datatype Catalog = Catalog(visit1: seq<Slot>, visit2: seq<Slot>)

  /** The RangeError `toISOString` throws when a selected date key is not a date. */
  datatype FilterError = InvalidDateKey(key: string)

  datatype Result<+T, +E> = Ok(value: T) | Failure(error: E)

  /** The value an option of a select box carries for slot `s` (src/App.jsx:180, 186). */
  function SelectionValue(s: Slot): string
  {
    s.dateKey + "|" + s.timeKey
  }

  /** `v.split('|')[0]`: everything before the first `|`, or all of `v` when there is none. */
  function DatePart(v: string): (r: string)
    ensures r <= v
    ensures '|' !in r
    ensures |r| < |v| ==> v[|r|] == '|'
  {
    if v == [] then []
    else if v[0] == '|' then []
    else [v[0]] + DatePart(v[1..])
  }

  /** The date part of an option value is the slot's date key, for a key without `|`. */
  lemma DatePartOfSelectionValue(s: Slot)
    requires '|' !in s.dateKey
    ensures DatePart(SelectionValue(s)) == s.dateKey
  {
    var v, r := SelectionValue(s), DatePart(SelectionValue(s));
    assert v[|s.dateKey|] == '|';
    assert |r| == |s.dateKey|;
    assert r == v[..|r|] == s.dateKey;
  }

  /** `a` is `b` with some elements left out, the rest in their original order. */
  ghost predicate IsSubsequence<T>(a: seq<T>, b: seq<T>)
    decreases |b|
  {
    if a == [] then true
    else if b == [] then false
    else (a[0] == b[0] && IsSubsequence(a[1..], b[1..])) || IsSubsequence(a, b[1..])
  }

  lemma {:induction false} SubsequenceReflexive<T>(s: seq<T>)
    ensures IsSubsequence(s, s)
    decreases |s|
  {
    if s != [] {
      SubsequenceReflexive(s[1..]);
    }
  }

  /** Whatever a subsequence holds, the whole sequence holds too. */
  lemma {:induction false} SubsequenceMembers<T>(a: seq<T>, b: seq<T>, x: T)
    requires IsSubsequence(a, b) && x in a
    ensures x in b
    decreases |b|
  {
    if a[0] == b[0] && IsSubsequence(a[1..], b[1..]) {
      if x != a[0] {
        SubsequenceMembers(a[1..], b[1..], x);
      }
    } else {
      SubsequenceMembers(a, b[1..], x);
    }
  }

  /** `slots.filter(slot => slot[3] === key)` (src/App.jsx:124, 131). */
  function KeepDate(slots: seq<Slot>, key: string): (r: seq<Slot>)
    ensures IsSubsequence(r, slots)
    ensures forall s :: s in r ==> s.dateKey == key
    ensures forall s :: s in slots && s.dateKey == key ==> s in r
    // every copy of a matching slot is kept, and no copy of another
    ensures forall s :: multiset(r)[s] == (if s.dateKey == key then multiset(slots)[s] else 0)
  {
    if slots == [] then []
    else
      assert slots == [slots[0]] + slots[1..];
      var rest := KeepDate(slots[1..], key);
      if slots[0].dateKey == key then
        var r := [slots[0]] + rest;
        assert r[1..] == rest;
        r
      else rest
  }

  /** Filtering keeps every slot when all of them carry the key. */
  lemma {:induction false} KeepDateAllMatch(slots: seq<Slot>, key: string)
    requires forall s :: s in slots ==> s.dateKey == key
    ensures KeepDate(slots, key) == slots
  {
    if slots != [] {
      assert slots[0] in slots;
      assert forall s :: s in slots[1..] ==> s in slots;
      KeepDateAllMatch(slots[1..], key);
      assert slots == [slots[0]] + slots[1..];
    }
  }

  /**
   * `filteredSlots`. The date part of an empty selection is empty, so
   * `selectedVisit1 ? selectedVisit1.split('|')[0] : null` followed by
   * `if (v1Date)` filters exactly when `DatePart(sel1) != ""`. The Visit-2
   * choice is read first, as in the source, so its invalid key is the one
   * reported when both are invalid.
   */
  function FilteredSlots(cat: Catalog, sel1: string, sel2: string): (r: Result<Catalog, FilterError>)
    // identity law: with no choice on a side the other list is the catalog list itself
    ensures sel1 == "" && sel2 == "" ==> r == Ok(cat)
    ensures r.Ok? && DatePart(sel2) == "" ==> r.value.visit1 == cat.visit1
    ensures r.Ok? && DatePart(sel1) == "" ==> r.value.visit2 == cat.visit2
    // the results never reorder or invent slots
    ensures r.Ok? ==> IsSubsequence(r.value.visit1, cat.visit1) && IsSubsequence(r.value.visit2, cat.visit2)
    // Visit 2 is restricted to exactly the slots of the day after the Visit-1 date
    ensures r.Ok? && DatePart(sel1) != "" ==>
      forall s :: s in r.value.visit2 ==> NextKey(DatePart(sel1)) == Some(s.dateKey)
    ensures r.Ok? && DatePart(sel1) != "" ==>
      forall s :: s in cat.visit2 ==> (s in r.value.visit2 <==> NextKey(DatePart(sel1)) == Some(s.dateKey))
    ensures r.Ok? && DatePart(sel1) != "" ==>
      forall s :: multiset(r.value.visit2)[s] ==
        (if NextKey(DatePart(sel1)) == Some(s.dateKey) then multiset(cat.visit2)[s] else 0)
    // Visit 1 is restricted to exactly the slots of the day before the Visit-2 date
    ensures r.Ok? && DatePart(sel2) != "" ==>
      forall s :: s in r.value.visit1 ==> PrevKey(DatePart(sel2)) == Some(s.dateKey)
    ensures r.Ok? && DatePart(sel2) != "" ==>
      forall s :: s in cat.visit1 ==> (s in r.value.visit1 <==> PrevKey(DatePart(sel2)) == Some(s.dateKey))
    ensures r.Ok? && DatePart(sel2) != "" ==>
      forall s :: multiset(r.value.visit1)[s] ==
        (if PrevKey(DatePart(sel2)) == Some(s.dateKey) then multiset(cat.visit1)[s] else 0)
    // an invalid chosen date throws instead of filtering
    ensures r.Failure? <==>
      (DatePart(sel2) != "" && Parse(DatePart(sel2)).None?) || (DatePart(sel1) != "" && Parse(DatePart(sel1)).None?)
    ensures r.Failure? && DatePart(sel2) != "" && Parse(DatePart(sel2)).None? ==> r.error == InvalidDateKey(DatePart(sel2))
  {
    var v1Date, v2Date := DatePart(sel1), DatePart(sel2);
    if v2Date != "" && PrevKey(v2Date).None? then Failure(InvalidDateKey(v2Date))
    else if v1Date != "" && NextKey(v1Date).None? then Failure(InvalidDateKey(v1Date))
    else
      var v1Filtered := if v2Date != "" then KeepDate(cat.visit1, PrevKey(v2Date).value) else cat.visit1;
      var v2Filtered := if v1Date != "" then KeepDate(cat.visit2, NextKey(v1Date).value) else cat.visit2;
      SubsequenceReflexive(cat.visit1);
      SubsequenceReflexive(cat.visit2);
      Ok(Catalog(v1Filtered, v2Filtered))
  }

  /**
   * When no Visit-2 slot falls on the day after the chosen Visit-1 date,
   * the Visit-2 list is empty, not the whole catalog; and symmetrically.
   */
  lemma NoMatchLeavesNothing(cat: Catalog, sel1: string, sel2: string)
    requires FilteredSlots(cat, sel1, sel2).Ok?
    ensures DatePart(sel1) != "" && (forall s :: s in cat.visit2 ==> NextKey(DatePart(sel1)) != Some(s.dateKey))
      ==> FilteredSlots(cat, sel1, sel2).value.visit2 == []
    ensures DatePart(sel2) != "" && (forall s :: s in cat.visit1 ==> PrevKey(DatePart(sel2)) != Some(s.dateKey))
      ==> FilteredSlots(cat, sel1, sel2).value.visit1 == []
  {
    var r := FilteredSlots(cat, sel1, sel2).value;
    if r.visit2 != [] {
      SubsequenceMembers(r.visit2, cat.visit2, r.visit2[0]);
    }
    if r.visit1 != [] {
      SubsequenceMembers(r.visit1, cat.visit1, r.visit1[0]);
    }
  }

  /** The values of a select box: the empty placeholder, then one per listed slot (src/App.jsx:178-181). */
  function SelectOptions(list: seq<Slot>): (opts: seq<string>)
    ensures |opts| == |list| + 1 && opts[0] == ""
    ensures forall i :: 0 <= i < |list| ==> opts[i + 1] == SelectionValue(list[i])
  {
    if list == [] then [""]
    else
      var rest := SelectOptions(list[1..]);
      [""] + [SelectionValue(list[0])] + rest[1..]
  }

  /** Every option is the placeholder or the value of a listed slot. */
  lemma SelectOptionChoice(list: seq<Slot>, v: string)
    requires v in SelectOptions(list)
    ensures v == "" || exists s :: s in list && v == SelectionValue(s)
  {
  }

  /**
   * The selection invariant: when both choices carry a date, those dates
   * are one day apart, read either from the Visit-1 side or from the
   * Visit-2 side.
   */
  predicate Consistent(sel1: string, sel2: string)
  {
    var d1, d2 := DatePart(sel1), DatePart(sel2);
    d1 == "" || d2 == "" || NextKey(d1) == Some(d2) || PrevKey(d2) == Some(d1)
  }

  /** On valid dates the invariant means exactly: the Visit-2 date is the calendar day after the Visit-1 date. */
  lemma ConsistentMeansNextDay(sel1: string, sel2: string)
    requires Parse(DatePart(sel1)).Some? && Parse(DatePart(sel2)).Some?
    ensures Consistent(sel1, sel2) <==> Next(Parse(DatePart(sel1)).value) == Parse(DatePart(sel2)).value
  {
    NextKeyPrevKey(DatePart(sel1), DatePart(sel2));
  }

  /** Choosing a Visit-1 option that the filter offers keeps the selection consistent. */
  lemma ChooseVisit1Consistent(cat: Catalog, sel1: string, sel2: string, v: string)
    requires FilteredSlots(cat, sel1, sel2).Ok?
    requires v in SelectOptions(FilteredSlots(cat, sel1, sel2).value.visit1)
    ensures Consistent(v, sel2)
  {
    var list := FilteredSlots(cat, sel1, sel2).value.visit1;
    SelectOptionChoice(list, v);
    if v != "" && DatePart(sel2) != "" {
      var s :| s in list && v == SelectionValue(s);
      assert s.dateKey == PrevKey(DatePart(sel2)).value;
      DatePartOfSelectionValue(s);
    }
  }

  /** Choosing a Visit-2 option that the filter offers keeps the selection consistent. */
  lemma ChooseVisit2Consistent(cat: Catalog, sel1: string, sel2: string, v: string)
    requires FilteredSlots(cat, sel1, sel2).Ok?
    requires v in SelectOptions(FilteredSlots(cat, sel1, sel2).value.visit2)
    ensures Consistent(sel1, v)
  {
    var list := FilteredSlots(cat, sel1, sel2).value.visit2;
    SelectOptionChoice(list, v);
    if v != "" && DatePart(sel1) != "" {
      var s :| s in list && v == SelectionValue(s);
      assert s.dateKey == NextKey(DatePart(sel1)).value;
      DatePartOfSelectionValue(s);
    }
  }
}
