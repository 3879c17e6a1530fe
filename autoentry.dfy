/**
 * The autocompleting entry field of the UI (`UI.CustomTk_autoEntry`).
 *
 * The Tk entry is modelled as a plain string: `get()` is the text,
 * `index(END)` its length, numeric indices are clamped into 0..|text| as Tk
 * does, `delete(i, END)` keeps the text before index i, `insert(i, s)` puts
 * s before index i, and `select_range(a, END)` records the pair (a, |text|).
 */
module AutoEntry {
  import opened Wrappers

  /** Key names that complete like a printable key (the class attribute `tk_umlauts`). */
  const Umlauts: seq<string> :=
    ["odiaeresis", "adiaeresis", "udiaeresis", "Odiaeresis", "Adiaeresis", "Udiaeresis", "ssharp"]

  /** A numeric entry index clamped into 0..n. */
  function ClampIndex(i: int, n: nat): (r: nat)
    ensures r <= n
  {
    if i < 0 then 0 else if i > n then n else i
  }

  /** The text left by `delete(i, END)`. */
  function DeleteToEnd(t: string, i: int): (r: string)
    ensures r <= t
  {
    t[..ClampIndex(i, |t|)]
  }

  /** The text left by `insert(i, s)`. */
  function InsertAt(t: string, i: int, s: string): string
  {
    var k := ClampIndex(i, |t|);
    t[..k] + s + t[k..]
  }

  /** `delete(0, END)` followed by `insert(0, h)` leaves exactly `h`. */
  lemma ReplaceAll(t: string, h: string)
    ensures InsertAt(DeleteToEnd(t, 0), 0, h) == h
  {
    assert DeleteToEnd(t, 0) == [];
  }

  // ---------------------------------------------------------------------
  // The hit list
  // ---------------------------------------------------------------------

  /** The elements of `completion` that start with `typed`, in list order. */
  function Hits(completion: seq<string>, typed: string): seq<string>
  {
    if completion == [] then []
    else
      var n := |completion| - 1;
      Hits(completion[..n], typed) + (if typed <= completion[n] then [completion[n]] else [])
  }

  /** The positions in `completion` of the elements that start with `typed`. */
  function HitPositions(completion: seq<string>, typed: string): seq<nat>
  {
    if completion == [] then []
    else
      var n := |completion| - 1;
      HitPositions(completion[..n], typed) + (if typed <= completion[n] then [n] else [])
  }

  /** A string is a hit exactly when it is in the completion list and extends the typed text. */
  lemma {:induction false} HitsMatch(completion: seq<string>, typed: string)
    ensures forall h :: h in Hits(completion, typed) <==> h in completion && typed <= h
  {
    if completion != [] {
      var n := |completion| - 1;
      HitsMatch(completion[..n], typed);
      assert completion == completion[..n] + [completion[n]];
    }
  }

  /** Each hit position points at the corresponding hit. */
  lemma {:induction false} HitPositionsPointAtHits(completion: seq<string>, typed: string)
    ensures |HitPositions(completion, typed)| == |Hits(completion, typed)|
    ensures forall k :: 0 <= k < |HitPositions(completion, typed)| ==>
      HitPositions(completion, typed)[k] < |completion| &&
      completion[HitPositions(completion, typed)[k]] == Hits(completion, typed)[k]
  {
    if completion != [] {
      var n := |completion| - 1;
      var front := completion[..n];
      HitPositionsPointAtHits(front, typed);
      var pos', hits' := HitPositions(front, typed), Hits(front, typed);
      var pos, hits := HitPositions(completion, typed), Hits(completion, typed);
      forall k | 0 <= k < |pos|
        ensures pos[k] < |completion| && completion[pos[k]] == hits[k]
      {
        if k < |pos'| {
          assert pos[k] == pos'[k] && hits[k] == hits'[k];
          assert front[pos'[k]] == completion[pos'[k]];
        }
      }
    }
  }

  /** Hit positions are strictly increasing and below the list length. */
  lemma {:induction false} HitPositionsIncrease(completion: seq<string>, typed: string)
    ensures forall k :: 0 <= k < |HitPositions(completion, typed)| ==>
      HitPositions(completion, typed)[k] < |completion|
    ensures forall k, l :: 0 <= k < l < |HitPositions(completion, typed)| ==>
      HitPositions(completion, typed)[k] < HitPositions(completion, typed)[l]
  {
    if completion != [] {
      var n := |completion| - 1;
      HitPositionsIncrease(completion[..n], typed);
      var pos', pos := HitPositions(completion[..n], typed), HitPositions(completion, typed);
      forall k, l | 0 <= k < l < |pos|
        ensures pos[k] < pos[l]
      {
        assert pos[k] == pos'[k];
        if l < |pos'| {
          assert pos[l] == pos'[l];
        }
      }
    }
  }

  /** Every position holding a match is a hit position. */
  lemma {:induction false} HitPositionsComplete(completion: seq<string>, typed: string)
    ensures forall j :: 0 <= j < |completion| && typed <= completion[j] ==>
      j in HitPositions(completion, typed)
  {
    if completion != [] {
      var n := |completion| - 1;
      var front := completion[..n];
      HitPositionsComplete(front, typed);
      var pos', pos := HitPositions(front, typed), HitPositions(completion, typed);
      forall j | 0 <= j < |completion| && typed <= completion[j]
        ensures j in pos
      {
        if j < n {
          assert front[j] == completion[j];
          assert j in pos';
        } else {
          assert pos[|pos| - 1] == n;
        }
      }
    }
  }

  /**
   * The hits are the completion-list elements at strictly increasing
   * positions, and every matching position is among them: the hit list keeps
   * every match, in the original order.
   */
  lemma {:induction false} HitsInOrder(completion: seq<string>, typed: string)
    ensures var hits, pos := Hits(completion, typed), HitPositions(completion, typed);
      |pos| == |hits| &&
      (forall k :: 0 <= k < |pos| ==> pos[k] < |completion| && completion[pos[k]] == hits[k]) &&
      (forall k, l :: 0 <= k < l < |pos| ==> pos[k] < pos[l]) &&
      (forall j :: 0 <= j < |completion| && typed <= completion[j] ==> j in pos)
  {
    HitPositionsPointAtHits(completion, typed);
    HitPositionsIncrease(completion, typed);
    HitPositionsComplete(completion, typed);
  }

  /** The loop of `autocomplete` that collects the hits by appending. */
  method CollectHits(completion: seq<string>, typed: string) returns (hits: seq<string>)
    ensures hits == Hits(completion, typed)
  {
    hits := [];
    var i := 0;
    while i < |completion|
      invariant 0 <= i <= |completion|
      invariant hits == Hits(completion[..i], typed)
    {
      assert completion[..i + 1][..i] == completion[..i];
      if typed <= completion[i] {
        hits := hits + [completion[i]];
      }
      i := i + 1;
    }
    assert completion[..i] == completion;
  }

  // ---------------------------------------------------------------------
  // The entry's state and its transitions
  // ---------------------------------------------------------------------

  /** The fields of an entry once `set_completion_list` has run. */
  datatype EntryState = EntryState(
    text: string,                   // what `get()` returns
    position: int,                  // where the typed prefix ends (Left can make it -1)
    hits: seq<string>,              // `_hits`
    hitIndex: int,                  // `_hit_index`
    completion: seq<string>,        // `_completion_list`
    selection: Option<(int, int)>)  // the last `select_range` pair

  /** The hit index is 0 with no hits and points into the hit list otherwise. */
  ghost predicate Valid(s: EntryState)
  {
    if s.hits == [] then s.hitIndex == 0 else 0 <= s.hitIndex < |s.hits|
  }

  /** The text the hits are matched against: the entry text once the first branch of `autocomplete` ran. */
  function Typed(s: EntryState, delta: int): string
  {
    if delta != 0 then DeleteToEnd(s.text, s.position) else s.text
  }

  /** The first branch of `autocomplete`: truncate to the typed prefix when cycling, else remember where typing ended. */
  function TruncateOrMark(s: EntryState, delta: int): EntryState
  {
    if delta != 0 then s.(text := DeleteToEnd(s.text, s.position)) else s.(position := |s.text|)
  }

  /** A hit list that differs from the stored one replaces it and restarts the index. */
  function StoreHits(s: EntryState, found: seq<string>): EntryState
  {
    if found != s.hits then s.(hitIndex := 0, hits := found) else s
  }

  /** The source's cycling step; its first test always holds after `StoreHits`. */
  function CycleIndex(s: EntryState, found: seq<string>, delta: int): EntryState
  {
    if found == s.hits && s.hits != [] then s.(hitIndex := (s.hitIndex + delta) % |s.hits|) else s
  }

  /** With hits, the text becomes the chosen hit and its completed tail is selected. */
  function ShowHit(s: EntryState): EntryState
    requires s.hits != [] ==> 0 <= s.hitIndex < |s.hits|
  {
    if s.hits != [] then
      var t := s.hits[s.hitIndex];
      s.(text := t, selection := Some((s.position, |t|)))
    else s
  }

  /** The state after `autocomplete(delta)`. */
  function AfterAutocomplete(s: EntryState, delta: int): EntryState
  {
    var s1 := TruncateOrMark(s, delta);
    var found := Hits(s1.completion, s1.text);
    ShowHit(CycleIndex(StoreHits(s1, found), found, delta))
  }

  /** The key names `handle_keyrelease` answers with `autocomplete(0)`. */
  predicate IsCompletionKey(keysym: string)
  {
    |keysym| == 1 || keysym in Umlauts
  }

  /** The state after `handle_keyrelease` for a key named `keysym`; `insert` is Tk's INSERT index. */
  function AfterKeyRelease(s: EntryState, keysym: string, insert: nat): EntryState
  {
    var s1 := if keysym == "BackSpace" then
                var t := DeleteToEnd(s.text, insert); s.(text := t, position := |t|)
              else s;
    var s2 := if keysym == "Left" then
                (if s1.position < |s1.text| then s1.(text := DeleteToEnd(s1.text, s1.position))
                 else var p := s1.position - 1; s1.(position := p, text := DeleteToEnd(s1.text, p)))
              else s1;
    var s3 := if keysym == "Right" then s2.(position := |s2.text|) else s2;
    var s4 := if keysym == "Down" then AfterAutocomplete(s3, 1) else s3;
    var s5 := if keysym == "Up" then AfterAutocomplete(s4, -1) else s4;
    if IsCompletionKey(keysym) then AfterAutocomplete(s5, 0) else s5
  }

  // ---------------------------------------------------------------------
  // Properties of autocomplete
  // ---------------------------------------------------------------------

  /** The stored hits become exactly the completions that extend the typed text. */
  lemma AutocompleteHits(s: EntryState, delta: int)
    ensures var r := AfterAutocomplete(s, delta);
      r.completion == s.completion &&
      r.hits == Hits(s.completion, Typed(s, delta)) &&
      (forall h :: h in r.hits <==> h in s.completion && Typed(s, delta) <= h)
  {
    HitsMatch(s.completion, Typed(s, delta));
  }

  /**
   * The hit index stays within the hit list; a new hit list restarts it at 0
   * and the step still cycles it by delta, while a known list cycles it from
   * where it was.
   */
  lemma AutocompleteIndex(s: EntryState, delta: int)
    ensures var r := AfterAutocomplete(s, delta);
      (r.hits != [] ==> 0 <= r.hitIndex < |r.hits|) &&
      (r.hits != s.hits ==> r.hitIndex == if r.hits == [] then 0 else delta % |r.hits|) &&
      (r.hits == s.hits && r.hits != [] ==> r.hitIndex == (s.hitIndex + delta) % |r.hits|) &&
      (r.hits == s.hits && r.hits == [] ==> r.hitIndex == s.hitIndex)
  {
  }

  /** Autocomplete keeps the hit-index invariant. */
  lemma AutocompleteValid(s: EntryState, delta: int)
    requires Valid(s)
    ensures Valid(AfterAutocomplete(s, delta))
  {
    AutocompleteIndex(s, delta);
  }

  /**
   * The text before the prefix end is kept and extended: with hits the text
   * becomes the chosen hit and the completed tail is selected; without hits
   * the text stays as typed (truncated to the prefix when cycling).
   */
  lemma AutocompleteText(s: EntryState, delta: int)
    ensures var r := AfterAutocomplete(s, delta);
      r.position == (if delta == 0 then |s.text| else s.position) &&
      Typed(s, delta) == s.text[..ClampIndex(r.position, |s.text|)] &&
      Typed(s, delta) <= r.text &&
      (r.hits != [] ==> 0 <= r.hitIndex < |r.hits| && r.text == r.hits[r.hitIndex] &&
                        r.selection == Some((r.position, |r.text|))) &&
      (r.hits == [] ==> r.text == Typed(s, delta) && r.selection == s.selection)
  {
    var r := AfterAutocomplete(s, delta);
    HitsMatch(s.completion, Typed(s, delta));
    if r.hits != [] {
      assert r.text in r.hits;
    }
  }

  /** Up on a hit list the entry has not seen before shows its last hit. */
  lemma UpOnNewHitsShowsLast(s: EntryState)
    requires Hits(s.completion, Typed(s, -1)) != s.hits
    requires Hits(s.completion, Typed(s, -1)) != []
    ensures var r := AfterAutocomplete(s, -1);
      r.hitIndex == |r.hits| - 1 && r.text == r.hits[|r.hits| - 1]
  {
    var n := |Hits(s.completion, Typed(s, -1))|;
    assert (0 + -1) % n == n - 1;
  }

  /** Stepping one hit forward and then one back leaves an index of a hit list where it was. */
  lemma CycleStepsCancel(i: int, n: nat)
    requires 0 <= i < n
    ensures ((i + 1) % n + -1) % n == i
  {
    if i + 1 < n {
      assert (i + 1) % n == i + 1;
    } else {
      assert (i + 1) % n == 0;
    }
  }

  /**
   * Cycling keeps the typed prefix: the next cycling step truncates the
   * completed text back to what this step matched against. This holds after
   * a completion key (delta 0) for every `position`, and after a cycling step
   * unless `position` lay beyond the end of the text.
   */
  lemma CyclingKeepsTyped(s: EntryState, delta: int, next: int)
    requires delta != 0 ==> s.position <= |s.text|
    requires next != 0
    ensures Typed(AfterAutocomplete(s, delta), next) == Typed(s, delta)
  {
    AutocompleteText(s, delta);
    if delta != 0 && s.position >= 0 {
      assert |Typed(s, delta)| == s.position;
    }
  }

  /**
   * Down then Up on a known hit list returns to the hit shown before, as long
   * as the prefix end lies within the text.
   */
  lemma DownThenUpReturns(s: EntryState)
    requires Valid(s)
    requires 0 <= s.position <= |s.text|
    requires s.hits != [] && Hits(s.completion, Typed(s, 1)) == s.hits
    ensures var r := AfterAutocomplete(AfterAutocomplete(s, 1), -1);
      r.hits == s.hits && r.hitIndex == s.hitIndex && r.text == s.hits[s.hitIndex] &&
      r.position == s.position
  {
    var s1 := AfterAutocomplete(s, 1);
    AutocompleteIndex(s, 1);
    AutocompleteText(s, 1);
    CyclingKeepsTyped(s, 1, -1);
    assert s1.hits == s.hits && s1.hitIndex == (s.hitIndex + 1) % |s.hits|;
    AutocompleteIndex(s1, -1);
    AutocompleteText(s1, -1);
    CycleStepsCancel(s.hitIndex, |s.hits|);
  }

  // ---------------------------------------------------------------------
  // Properties of the key dispatch
  // ---------------------------------------------------------------------

  /** Each key name runs exactly one branch of the handler, and an unknown key changes nothing. */
  lemma KeyDispatch(s: EntryState, keysym: string, insert: nat)
    ensures var r := AfterKeyRelease(s, keysym, insert);
      (keysym == "BackSpace" ==>
         r == s.(text := DeleteToEnd(s.text, insert), position := ClampIndex(insert, |s.text|))) &&
      (keysym == "Left" ==>
         r.position == (if s.position < |s.text| then s.position else s.position - 1) &&
         r == s.(position := r.position, text := DeleteToEnd(s.text, r.position))) &&
      (keysym == "Right" ==> r == s.(position := |s.text|)) &&
      (keysym == "Down" ==> r == AfterAutocomplete(s, 1)) &&
      (keysym == "Up" ==> r == AfterAutocomplete(s, -1)) &&
      (IsCompletionKey(keysym) ==> r == AfterAutocomplete(s, 0)) &&
      (keysym !in ["BackSpace", "Left", "Right", "Down", "Up"] && !IsCompletionKey(keysym) ==> r == s)
  {
    if keysym == "BackSpace" {
      assert !IsCompletionKey(keysym);
    } else if keysym == "Left" {
      assert !IsCompletionKey(keysym);
    } else if keysym == "Right" {
      assert !IsCompletionKey(keysym);
    } else if keysym == "Down" {
      assert !IsCompletionKey(keysym);
    } else if keysym == "Up" {
      assert !IsCompletionKey(keysym);
    }
  }

  /** Left on an empty entry whose prefix ends at 0 moves the prefix end to -1. */
  lemma LeftAtStart(s: EntryState, insert: nat)
    requires s.text == [] && s.position == 0
    ensures AfterKeyRelease(s, "Left", insert).position == -1
  {
  }

  /** A key release keeps the hit-index invariant and never changes the completion list. */
  lemma KeyReleaseValid(s: EntryState, keysym: string, insert: nat)
    requires Valid(s)
    ensures Valid(AfterKeyRelease(s, keysym, insert))
    ensures AfterKeyRelease(s, keysym, insert).completion == s.completion
  {
    KeyDispatch(s, keysym, insert);
    if keysym == "Down" {
      AutocompleteValid(s, 1);
    } else if keysym == "Up" {
      AutocompleteValid(s, -1);
    } else if IsCompletionKey(keysym) {
      AutocompleteValid(s, 0);
    }
  }

  // ---------------------------------------------------------------------
  // The widget
  // ---------------------------------------------------------------------

  /** An entry field with autocompletion. */
  class Entry {
    var text: string
    var position: int
    var hits: seq<string>
    var hitIndex: int
    var completion: seq<string>
    var selection: Option<(int, int)>

    /** The fields as a value. */
    function State(): EntryState
      reads this
    {
      EntryState(text, position, hits, hitIndex, completion, selection)
    }

    /** A new, empty entry on which `set_completion_list(completion)` has been called. */
    constructor (completion: seq<string>)
      ensures State() == EntryState([], 0, [], 0, completion, None)
      ensures Valid(State())
    {
      text := [];
      selection := None;
      this.completion := completion;
      hits := [];
      hitIndex := 0;
      position := 0;
    }

    /** Replaces the completion list and forgets the hits; the text is not touched. */
    method SetCompletionList(completion: seq<string>)
      modifies this
      ensures State() == old(State()).(completion := completion, hits := [], hitIndex := 0, position := 0)
      ensures Valid(State())
    {
      this.completion := completion;
      hits := [];
      hitIndex := 0;
      position := 0;
    }

    /** Completes the text to a hit; delta 1 / -1 cycles through the hits. */
    method Autocomplete(delta: int)
      modifies this
      ensures State() == AfterAutocomplete(old(State()), delta)
      ensures old(Valid(State())) ==> Valid(State())
    {
      ghost var s0 := State();
      if delta != 0 {
        text := DeleteToEnd(text, position);
      } else {
        position := |text|;
      }
      ghost var s1 := State();
      assert s1 == TruncateOrMark(s0, delta);
      var found := CollectHits(completion, text);
      if found != hits {
        hitIndex := 0;
        hits := found;
      }
      ghost var s2 := State();
      assert s2 == StoreHits(s1, found);
      if found == hits && hits != [] {
        hitIndex := (hitIndex + delta) % |hits|;
      }
      ghost var s3 := State();
      assert s3 == CycleIndex(s2, found, delta);
      if hits != [] {
        ReplaceAll(text, hits[hitIndex]);
        text := DeleteToEnd(text, 0);
        text := InsertAt(text, 0, hits[hitIndex]);
        selection := Some((position, |text|));
      }
      assert State() == ShowHit(s3);
    }

    /** The key-release handler. */
    method HandleKeyRelease(keysym: string, insert: nat)
      modifies this
      ensures State() == AfterKeyRelease(old(State()), keysym, insert)
      ensures old(Valid(State())) ==> Valid(State())
    {
      if Valid(State()) {
        KeyReleaseValid(State(), keysym, insert);
      }
      if keysym == "BackSpace" {
        text := DeleteToEnd(text, insert);
        position := |text|;
      }
      if keysym == "Left" {
        if position < |text| {
          text := DeleteToEnd(text, position);
        } else {
          position := position - 1;
          text := DeleteToEnd(text, position);
        }
      }
      if keysym == "Right" {
        position := |text|;
      }
      if keysym == "Down" {
        Autocomplete(1);
      }
      if keysym == "Up" {
        Autocomplete(-1);
      }
      if IsCompletionKey(keysym) {
        Autocomplete(0);
      }
    }
  }
}
