/**
 Which transition an event selects: the guards of event pattern, state list and condition,
 read in document order.
 */
module CcxmlSelection {
  import opened Basics
  import opened CcxmlTree
  import opened CcxmlMachine
  import opened CcxmlMatcher

  // ----- state lists -------------------------------------------------------

  /** From `i` to `j` the list holds a word: no blank inside, and a blank or an end on either side. */
  predicate Word(states: string, i: nat, j: nat) {
    && i < j <= |states| && (forall k :: i <= k < j ==> !Blank(states[k]))
    && (i == 0 || Blank(states[i - 1])) && (j == |states| || Blank(states[j]))
  }

  /** The word that starts at `i` is `value`. */
  predicate WordAt(states: string, value: string, i: nat) {
    Word(states, i, i + |value|) && states[i..i + |value|] == value
  }

  /** `value` is one of the words of the list. */
  predicate Listed(states: string, value: string) { exists i :: 0 <= i < |states| && WordAt(states, value, i) }

  /** Before `cursor` the list holds no occurrence of `value`. */
  ghost predicate NotBefore(states: string, value: string, cursor: nat) {
    forall i :: 0 <= i < cursor ==> !WordAt(states, value, i)
  }

  /** The cursor has passed blanks up to `start` and then a run of other characters up to `stop`. */
  ghost predicate Passed(states: string, from: nat, start: nat, stop: nat) {
    && from <= start <= stop <= |states|
    && (forall k :: from <= k < start ==> Blank(states[k])) && (forall k :: start <= k < stop ==> !Blank(states[k]))
    && (stop == |states| || Blank(states[stop]))
  }

  /** A word that starts there is the whole run: it starts at no blank and inside no other word. */
  lemma OneWord(states: string, value: string, from: nat, start: nat, stop: nat, i: nat)
    requires Passed(states, from, start, stop) && from <= i < stop && WordAt(states, value, i)
    ensures i == start && stop - start == |value| && states[start..stop] == value
  {
    assert !Blank(states[i]);
    assert i == start || i - 1 < start;
  }

  lemma NextWord(states: string, value: string, from: nat, start: nat, stop: nat)
    requires Passed(states, from, start, stop) && NotBefore(states, value, from)
    requires !(stop - start == |value| && states[start..stop] == value)
    ensures NotBefore(states, value, stop)
  {
    forall i | from <= i < stop && WordAt(states, value, i) ensures false {
      OneWord(states, value, from, start, stop, i);
    }
  }

  /** state_list_matches. A value is matched when it is one of the words; the empty value, which the
      guard never asks for, is matched by a list that ends with a blank. */
  method StateListMatches(states: string, value: string) returns (found: bool)
    ensures found <==> Listed(states, value) || (value == [] && states != [] && Blank(states[|states| - 1]))
  {
    var cursor := 0;
    while cursor < |states|
      invariant cursor <= |states| && NotBefore(states, value, cursor)
      invariant 0 < cursor < |states| ==> Blank(states[cursor])
      invariant value == [] && 0 < cursor == |states| ==> !Blank(states[cursor - 1])
    {
      ghost var from := cursor;
      while cursor < |states| && Blank(states[cursor])
        invariant from <= cursor <= |states| && forall k :: from <= k < cursor ==> Blank(states[k])
      {
        cursor := cursor + 1;
      }
      var start := cursor;
      while cursor < |states| && !Blank(states[cursor])
        invariant start <= cursor <= |states| && forall k :: start <= k < cursor ==> !Blank(states[k])
      {
        cursor := cursor + 1;
      }
      if cursor - start == |value| && states[start..start + |value|] == value {
        assert value != [] ==> WordAt(states, value, start);
        return true;
      }
      NextWord(states, value, from, start, cursor);
    }
    return false;
  }

  // ----- guards ------------------------------------------------------------

  /** An event as a session meets it: its name, what reading the state variable answers, and what the
      condition of each transition answers over the committed scope. */
  datatype Event = Event(name: string, state: Answer<string>, cond: (nat, Scope) -> Answer<bool>)

  /** What the guard of transition `i` decides. */
  function Guard(h: Header, e: Event, i: nat, committed: Scope): Answer<bool> {
    if !Glob(h.Pattern(), e.name) then Value(false)
    else
      match h.states
      case None => Condition(h, e, i, committed)
      case Some(states) =>
        match e.state
        case Fault(error) => Fault(error)
        case Value(text) =>
          if !ValidText(text) then Fault(InvalidContract)
          else if !Listed(states, text) then Value(false)
          else Condition(h, e, i, committed)
  }

  function Condition(h: Header, e: Event, i: nat, committed: Scope): Answer<bool> {
    if h.condition.Some? then e.cond(i, committed) else Value(true)
  }

  /** The words of the list name the state that was read. */
  predicate InState(h: Header, e: Event) {
    h.states.None? || (e.state.Value? && ValidText(e.state.value) && Listed(h.states.value, e.state.value))
  }

  /** A guard is open exactly if pattern, state list and condition all agree; it fails exactly if the pattern
      matches and then the state cannot be read, or is no text, or names a listed state and the condition fails. */
  lemma GuardMeans(h: Header, e: Event, i: nat, committed: Scope)
    ensures Guard(h, e, i, committed) == Value(true)
       <==> Glob(h.Pattern(), e.name) && InState(h, e) && (h.condition.None? || e.cond(i, committed) == Value(true))
    ensures forall error :: Guard(h, e, i, committed) == Fault(error) <==>
      && Glob(h.Pattern(), e.name)
      && if h.states.Some? && e.state.Fault? then e.state.error == error
         else if h.states.Some? && !ValidText(e.state.value) then error == InvalidContract
         else InState(h, e) && h.condition.Some? && e.cond(i, committed) == Fault(error)
  {
  }

  /** transition_guard: once some guard has failed, the later ones are closed without being asked. */
  method TransitionGuard(h: Header, e: Event, i: nat, committed: Scope, status: Status)
    returns (enabled: bool, status': Status)
    ensures !status.Ok? ==> !enabled && status' == status
    ensures status.Ok? ==>
      match Guard(h, e, i, committed)
      case Value(open) => status' == Ok && enabled == open
      case Fault(error) => status' == error && !enabled
  {
    status', enabled := status, false;
    if !status.Ok? { return; }
    enabled := Matches(h.Pattern(), e.name);
    if !enabled { return; }
    if h.states.Some? {
      if e.state.Fault? { return false, e.state.error; }
      var text := e.state.value;
      if !ValidText(text) { return false, InvalidContract; }
      enabled := StateListMatches(h.states.value, text);
      if !enabled { return; }
    }
    if h.condition.Some? {
      var answer := e.cond(i, committed);
      match answer {
        case Fault(error) => return false, error;
        case Value(open) => enabled := open;
      }
    }
  }

  // ----- selection ---------------------------------------------------------

  datatype Choice = Chosen(transition: nat) | Unmatched | Broke(error: Error)

  /** Every transition before the `n`th has its guard closed. */
  ghost predicate ClosedBefore(hs: seq<Header>, e: Event, committed: Scope, n: nat)
    requires n <= |hs|
  {
    forall j :: 0 <= j < n ==> Guard(hs[j], e, j, committed) == Value(false)
  }

  /** The first guard that does not stay closed decides. */
  ghost predicate Selects(hs: seq<Header>, e: Event, committed: Scope, c: Choice) {
    match c
    case Chosen(i) => i < |hs| && Guard(hs[i], e, i, committed) == Value(true) && ClosedBefore(hs, e, committed, i)
    case Unmatched => ClosedBefore(hs, e, committed, |hs|)
    case Broke(error) =>
      exists i :: 0 <= i < |hs| && Guard(hs[i], e, i, committed) == Fault(error) && ClosedBefore(hs, e, committed, i)
  }

  /** There is exactly one choice. */
  ghost function ChoiceOf(hs: seq<Header>, e: Event, committed: Scope, from: nat := 0): (c: Choice)
    requires from <= |hs| && ClosedBefore(hs, e, committed, from)
    ensures Selects(hs, e, committed, c)
    ensures forall d :: Selects(hs, e, committed, d) ==> d == c
    decreases |hs| - from
  {
    if from == |hs| then Unmatched
    else
      match Guard(hs[from], e, from, committed)
      case Fault(error) => Broke(error)
      case Value(open) => if open then Chosen(from) else ChoiceOf(hs, e, committed, from + 1)
  }

  /** The guards in document order, up to the first that is enabled. */
  method Select(hs: seq<Header>, e: Event, committed: Scope) returns (c: Choice)
    ensures Selects(hs, e, committed, c)
  {
    var status := Ok;
    for i := 0 to |hs|
      invariant status.Ok? ==> ClosedBefore(hs, e, committed, i)
      invariant !status.Ok? ==> Selects(hs, e, committed, Broke(status))
    {
      var enabled;
      enabled, status := TransitionGuard(hs[i], e, i, committed, status);
      if enabled { return Chosen(i); }
    }
    c := if status.Ok? then Unmatched else Broke(status);
  }
}
