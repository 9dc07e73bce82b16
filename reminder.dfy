/**
 * The second-iteration reminder: a one-shot flag that, once the due date has
 * passed for an unvaccinated patient, sends one reminder over the channel the
 * patient prefers. Console output becomes the returned channel.
 */
module Reminders {
  import opened Wrappers

  datatype Channel = Email | Text | PhoneCall

  /**
   * The channel for a preferred style. The source lower-cases the style but
   * drops the result, so matching is case-sensitive.
   */
  function ChannelFor(style: string): (c: Channel)
    ensures c == Email <==> style == "email"
    ensures c == Text <==> style == "text"
    ensures c == PhoneCall <==> style != "email" && style != "text"
  {
    if style == "email" then Email
    else if style == "text" then Text
    else PhoneCall
  }

  /** The guard of `isReminded`. */
  predicate ShouldRemind(date: int, dueDate: int, vaccinated: bool, reminded: bool)
  {
    date > dueDate && !vaccinated && !reminded
  }

  /** A reminder already sent blocks every further one. */
  lemma RemindedBlocks(date: int, dueDate: int, vaccinated: bool)
    ensures !ShouldRemind(date, dueDate, vaccinated, true)
  {
  }

  class Reminder {
    var vaccineID: int
    var dueDate: Option<int>
    var date: Option<int>
    var vaccinated: bool
    var reminded: bool
    var remindStyle: Option<string>

    /** Java's default constructor: the fields are set afterwards by callers. */
    constructor ()
      ensures vaccineID == 0 && dueDate == None && date == None
      ensures !vaccinated && !reminded && remindStyle == None
    {
      vaccineID, dueDate, date := 0, None, None;
      vaccinated, reminded, remindStyle := false, false, None;
    }

    /**
     * `isReminded`: when the guard holds, picks the channel and raises the
     * flag; otherwise nothing happens. Only `reminded` can change.
     */
    method IsReminded() returns (sent: Option<Channel>)
      requires date.Some? && dueDate.Some?
      requires ShouldRemind(date.value, dueDate.value, vaccinated, reminded) ==> remindStyle.Some?
      modifies this`reminded
      ensures old(reminded) ==> reminded
      ensures reminded == (old(reminded) || ShouldRemind(date.value, dueDate.value, vaccinated, old(reminded)))
      ensures sent == if ShouldRemind(date.value, dueDate.value, vaccinated, old(reminded))
                      then Some(ChannelFor(remindStyle.value)) else None
    {
      sent := None;
      if date.value > dueDate.value && !vaccinated && !reminded {
        sent := Some(ChannelFor(remindStyle.value));
        reminded := true;
      }
    }

    /** Calling `isReminded` twice in a row: the second call sends nothing. */
    method RemindTwice() returns (first: Option<Channel>, second: Option<Channel>)
      requires date.Some? && dueDate.Some?
      requires ShouldRemind(date.value, dueDate.value, vaccinated, reminded) ==> remindStyle.Some?
      modifies this`reminded
      ensures second == None
      ensures reminded == (old(reminded) || ShouldRemind(date.value, dueDate.value, vaccinated, old(reminded)))
      ensures first == if ShouldRemind(date.value, dueDate.value, vaccinated, old(reminded))
                       then Some(ChannelFor(remindStyle.value)) else None
    {
      first := IsReminded();
      second := IsReminded();
    }
  }
}
