/**
 * The time picker: an hour and a minute select kept in component state,
 * seeded from the `time` prop ("HH:MM"), and reporting "hour:minute" to
 * its owner once both parts are chosen.
 */
module TimePicker {
  import opened Wrappers
  import opened Text

  /** `i.toString().padStart(2, '0')`. */
  function Pad2(i: nat): (s: string)
    ensures |NatToString(i)| >= 2 ==> s == NatToString(i)
    ensures |NatToString(i)| < 2 ==> s == "0" + NatToString(i)
  {
    var d := NatToString(i);
    if |d| >= 2 then d else "0" + d
  }

  /** Below 100 the padded numeral has exactly two digits and reads back as the number. */
  lemma PadRoundTrip(i: nat)
    requires i < 100
    ensures |Pad2(i)| == 2
    ensures forall k :: 0 <= k < 2 ==> IsDigit(Pad2(i)[k])
    ensures DecimalValue(Pad2(i)) == i
  {
    DecimalRoundTrip(i);
    var d := NatToString(i);
    if i >= 10 {
      assert d == NatToString(i / 10) + [DigitChar(i % 10)];
    } else {
      assert Pad2(i) == "0" + d;
      assert Pad2(i)[..1] == "0";
    }
  }

  /** The option lists: `00`…`23` and `00`…`59`. */
  function Options(count: nat): (r: seq<string>)
    requires count <= 100
    ensures |r| == count
    ensures forall i :: 0 <= i < count ==> r[i] == Pad2(i)
  {
    seq(count, i requires 0 <= i < count => Pad2(i))
  }

  function HourOptions(): seq<string> { Options(24) }
  function MinuteOptions(): seq<string> { Options(60) }

  /** Every option is two digits, and each option is listed once, at the position of its value. */
  lemma OptionsWellFormed(count: nat, i: nat, j: nat)
    requires count <= 100 && i < count && j < count
    ensures |Options(count)[i]| == 2
    ensures DecimalValue(Options(count)[i]) == i
    ensures Options(count)[i] == Options(count)[j] ==> i == j
  {
    PadRoundTrip(i);
    PadRoundTrip(j);
  }

  /**
   * The picker's state. `selectedMinute` is `None` where the component
   * stores `undefined` (a `time` without ':'); `reported` collects the
   * values passed to `onTimeChange`, which is optional: without it
   * (`hasOnTimeChange` false) nothing is ever reported.
   */
  class Picker {
    var selectedHour: string
    var selectedMinute: Option<string>
    var reported: seq<string>
    const hasOnTimeChange: bool

    constructor (hasOnTimeChange: bool)
      ensures selectedHour == "" && selectedMinute == Some("") && reported == []
      ensures this.hasOnTimeChange == hasOnTimeChange
    {
      this.hasOnTimeChange := hasOnTimeChange;
      selectedHour := "";
      selectedMinute := Some("");
      reported := [];
    }

    /** The effect on `time`: a non-empty value is split at ':' into hour and minute. */
    method SetTime(time: Option<string>)
      modifies this
      ensures !Truthy(time) ==> selectedHour == old(selectedHour) && selectedMinute == old(selectedMinute)
      ensures Truthy(time) ==> selectedHour == Split(time.value, ':')[0]
      ensures Truthy(time) ==> (selectedMinute.Some? <==> |Split(time.value, ':')| >= 2)
      ensures Truthy(time) && selectedMinute.Some? ==> selectedMinute.value == Split(time.value, ':')[1]
      ensures reported == old(reported)
    {
      if Truthy(time) {
        var parts := Split(time.value, ':');
        selectedHour := parts[0];
        selectedMinute := if |parts| >= 2 then Some(parts[1]) else None;
      }
    }

    /** `handleHourChange`: reports only when a minute has been chosen and a callback was given. */
    method HandleHourChange(hour: string)
      modifies this
      ensures selectedHour == hour && selectedMinute == old(selectedMinute)
      ensures hasOnTimeChange && Truthy(selectedMinute) ==> reported == old(reported) + [hour + ":" + selectedMinute.value]
      ensures !(hasOnTimeChange && Truthy(selectedMinute)) ==> reported == old(reported)
    {
      selectedHour := hour;
      if Truthy(selectedMinute) && hasOnTimeChange {
        reported := reported + [hour + ":" + selectedMinute.value];
      }
    }

    /** `handleMinuteChange`: reports only when an hour has been chosen and a callback was given. */
    method HandleMinuteChange(minute: string)
      modifies this
      ensures selectedMinute == Some(minute) && selectedHour == old(selectedHour)
      ensures hasOnTimeChange && selectedHour != "" ==> reported == old(reported) + [selectedHour + ":" + minute]
      ensures !(hasOnTimeChange && selectedHour != "") ==> reported == old(reported)
    {
      selectedMinute := Some(minute);
      if selectedHour != "" && hasOnTimeChange {
        reported := reported + [selectedHour + ":" + minute];
      }
    }
  }

  /** A reported "hour:minute", fed back as `time`, yields the same hour and minute. */
  lemma ReportRoundTrip(hour: string, minute: string)
    requires ':' !in hour && ':' !in minute
    ensures Split(hour + ":" + minute, ':') == [hour, minute]
  {
    SplitAfterPlain(hour, ':', minute);
    SplitPlain(minute, ':');
  }

  /**
   * Choosing an hour and then a minute from a fresh picker reports exactly the
   * chosen time once, or nothing when no callback was given.
   */
  method ChooseHourThenMinute(hour: string, minute: string, hasOnTimeChange: bool) returns (p: Picker)
    requires hour != ""
    ensures fresh(p) && p.hasOnTimeChange == hasOnTimeChange
    ensures p.reported == if hasOnTimeChange then [hour + ":" + minute] else []
  {
    p := new Picker(hasOnTimeChange);
    p.HandleHourChange(hour);
    p.HandleMinuteChange(minute);
  }

  /** Both option lists round-trip through the picker: every reported time splits back into its choices. */
  lemma OptionsRoundTrip(h: nat, m: nat)
    requires h < 24 && m < 60
    ensures Split(HourOptions()[h] + ":" + MinuteOptions()[m], ':') == [HourOptions()[h], MinuteOptions()[m]]
  {
    var hs, ms := HourOptions()[h], MinuteOptions()[m];
    PadRoundTrip(h);
    PadRoundTrip(m);
    assert forall k :: 0 <= k < |hs| ==> hs[k] != ':';
    assert forall k :: 0 <= k < |ms| ==> ms[k] != ':';
    ReportRoundTrip(hs, ms);
  }
}
