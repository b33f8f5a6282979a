/**
 * The header's date-range picker: the label that shows the applied range,
 * and the popover's working copy of the range ("temp range") that the
 * calendar edits and Apply hands to the owner.
 */
module DateRange {
  import opened Base
  import opened Json
  import opened External

  /** The moment.js format of each end of the label. */
  const LabelFormat := "D MMM"

  const NoDatesLabel := "Select dates"

  /** `range[0]` and `range[1]` of a two-element range. */
  lemma PairMembers(a: Value, b: Value)
    ensures Member(Arr([a, b]), "0") == a && Member(Arr([a, b]), "1") == b
  {
    assert NatToString(0) == "0" && NatToString(1) == "1";
    assert IndexKey("1", 0, 2) == Some(1);
  }

  /**
   * `formatDateRange(range)`: "Select dates" without a range or a start,
   * the start alone without an end, and otherwise "start - end", each end
   * written by moment.js as "D MMM".
   */
  function FormatDateRange(range: Value, m: Moment): (r: string)
    ensures Falsy(range) || Falsy(Member(range, "0")) ==> r == NoDatesLabel
    ensures !Falsy(range) && !Falsy(Member(range, "0")) && Falsy(Member(range, "1"))
            ==> r == m.format(Member(range, "0"), LabelFormat)
    ensures !Falsy(range) && !Falsy(Member(range, "0")) && !Falsy(Member(range, "1"))
            ==> r == m.format(Member(range, "0"), LabelFormat) + " - " + m.format(Member(range, "1"), LabelFormat)
  {
    if Falsy(range) || Falsy(Member(range, "0")) then NoDatesLabel
    else
      var startDate := m.format(Member(range, "0"), LabelFormat);
      if Falsy(Member(range, "1")) then startDate
      else startDate + " - " + m.format(Member(range, "1"), LabelFormat)
  }

  /** The label of a range read as [start, end]: what the cases above give for a two-element range. */
  lemma LabelOfPair(start: Value, end: Value, m: Moment)
    ensures Falsy(start) ==> FormatDateRange(Arr([start, end]), m) == NoDatesLabel
    ensures !Falsy(start) && Falsy(end) ==> FormatDateRange(Arr([start, end]), m) == m.format(start, LabelFormat)
    ensures !Falsy(start) && !Falsy(end)
            ==> FormatDateRange(Arr([start, end]), m) == m.format(start, LabelFormat) + " - " + m.format(end, LabelFormat)
  {
    PairMembers(start, end);
  }

  /** The cleared range `[null, null]` is labelled "Select dates", whatever moment.js does. */
  lemma ClearedLabel(m: Moment)
    ensures FormatDateRange(Arr([Null, Null]), m) == NoDatesLabel
  {
    PairMembers(Null, Null);
  }

  /** `value || [null, null]`: the working range a closed popover mirrors. */
  function Mirror(value: Value): (r: Value)
    ensures !Nullish(r)
    ensures !Falsy(value) ==> r == value
  {
    if Falsy(value) then Arr([Null, Null]) else value
  }

  /** The picker component: its `value` prop, the popover flag, the temp range, and the `onChange` calls made. */
  class Picker {
    var value: Value
    var isOpen: bool
    var tempRange: Value
    /** The arguments of the `onChange` calls, in order; none are recorded when no `onChange` is given. */
    var changes: seq<Value>
    const hasOnChange: bool

    /** While the popover is closed the temp range mirrors the value; the temp range is never `null`/`undefined`. */
    predicate Valid()
      reads this
    {
      && !Nullish(tempRange)
      && (!isOpen ==> tempRange == Mirror(value))
    }

    /** Apply is enabled exactly when the temp range has a start. */
    predicate CanApply()
      reads this
      requires Valid()
    {
      !Falsy(Member(tempRange, "0"))
    }

    constructor (value: Value, hasOnChange: bool)
      ensures Valid() && this.value == value && this.hasOnChange == hasOnChange
      ensures !isOpen && tempRange == Mirror(value) && changes == []
    {
      this.value := value;
      this.hasOnChange := hasOnChange;
      isOpen := false;
      tempRange := Mirror(value);
      changes := [];
    }

    /** The owner re-renders with a new `value`; the sync effect copies it into a closed popover only. */
    method SetValue(v: Value)
      modifies this
      requires Valid()
      ensures Valid() && value == v && isOpen == old(isOpen) && changes == old(changes)
      ensures old(isOpen) ==> tempRange == old(tempRange)
    {
      value := v;
      if !isOpen {
        tempRange := Mirror(v);
      }
    }

    /** The trigger button flips the popover; closing it re-syncs the temp range and so discards the edits. */
    method Toggle()
      modifies this
      requires Valid()
      ensures Valid() && isOpen == !old(isOpen) && value == old(value) && changes == old(changes)
      ensures old(isOpen) ==> tempRange == Mirror(value)
      ensures !old(isOpen) ==> tempRange == old(tempRange)
    {
      isOpen := !isOpen;
      if !isOpen {
        tempRange := Mirror(value);
      }
    }

    /** Cancel, or the popover's own close: the popover closes and the edits are discarded. */
    method Close()
      modifies this
      requires Valid()
      ensures Valid() && !isOpen && tempRange == Mirror(value)
      ensures value == old(value) && changes == old(changes)
    {
      isOpen := false;
      tempRange := Mirror(value);
    }

    /** The calendar (shown only while the popover is open) sets the temp range. */
    method Pick(start: Value, end: Value)
      modifies this
      requires Valid() && isOpen
      ensures Valid() && isOpen && tempRange == Arr([start, end])
      ensures value == old(value) && changes == old(changes)
      ensures CanApply() <==> !Falsy(start)
    {
      tempRange := Arr([start, end]);
      PairMembers(start, end);
    }

    /** `handleClear`: the temp range becomes [null, null], `onChange` is not called, and Apply is disabled. */
    method Clear()
      modifies this
      requires Valid() && isOpen
      ensures Valid() && isOpen && tempRange == Arr([Null, Null]) && !CanApply()
      ensures value == old(value) && changes == old(changes)
    {
      tempRange := Arr([Null, Null]);
      PairMembers(Null, Null);
    }

    /**
     * A click on Apply. While the temp range has no start the button is
     * disabled and nothing happens; otherwise `handleApply` passes the temp
     * range to `onChange` and closes the popover.
     */
    method ClickApply()
      modifies this
      requires Valid() && isOpen
      ensures Valid() && value == old(value)
      ensures !old(CanApply()) ==> isOpen && tempRange == old(tempRange) && changes == old(changes)
      ensures old(CanApply()) ==> !isOpen && tempRange == Mirror(value)
      ensures old(CanApply()) && hasOnChange ==> changes == old(changes) + [old(tempRange)]
      ensures old(CanApply()) && !hasOnChange ==> changes == old(changes)
      ensures forall k :: 0 <= k < |changes| ==> k < |old(changes)| || !Falsy(changes[k])
    {
      if CanApply() {
        if hasOnChange {
          changes := changes + [tempRange];
        }
        isOpen := false;
        tempRange := Mirror(value);
      }
    }
  }
}
