/**
 * The booking screen's session state (src/App.jsx:8-19) and the event
 * handlers that change it.
 *
 * Every `useState` field is a field of `BookingSession`; every handler is
 * a method that runs to completion. A backend request becomes a `Call`
 * that the method returns, and the backend's answer is a `Reply`
 * parameter. `fetchSlots` and `fetchBooking`, when another handler starts
 * them, complete later through the methods `FetchSlots` and
 * `FetchBooking`. The `loading` flag is not modelled.
 */
module Session {
  import opened DateKeys
  import opened Slots

  /** Seconds before a verification code may be sent again (src/App.jsx:37). */
  const CodeCooldown := 180

  /** The one code `verifyOtp` accepts (src/App.jsx:42). */
  const AcceptedCode := "123456"

  const NameAndEmailRequired := "Name and Email required."
  const InvalidCode := "Invalid OTP. Use 123456 for testing."
  const SlotsFetchFailed := "Failed to fetch slots"
  const BookingFetchFailed := "Could not fetch booking"
  const SelectBothSlots := "Select both slots"
  const BookingSucceeded := "Booking successful!"
  const BookingFailed := "Booking failed."
  const SubmitError := "Error submitting booking"
  const BookingCancelled := "Booking cancelled."
  const CancellationFailed := "Cancellation failed."
  const CancelError := "Error cancelling booking"

  /** The confirmation `sendOtp` shows (src/App.jsx:38). */
  function CodeSentMessage(email: string): string
  {
    "A verification code has been sent to " + email
      + ". If not received, check spam folder. (Use 123456 for testing)"
  }

  /** A reservation as `getBooking` returns it. */
  datatype Booking = Booking(visit1Date: string, visit1Time: string, visit2Date: string, visit2Time: string)

  /** What came back from the backend: a response body, or a failed request (the `catch` branches). */
  datatype Reply<+T> = Response(data: T) | TransportError

  /** The body of a `submitBooking` response: `{ success, message? }`. */
  datatype SubmitReply = SubmitReply(success: bool, message: Option<string>)

  /** The body of a `cancelBooking` response: `{ success }`. */
  datatype CancelReply = CancelReply(success: bool)

  /** A request sent to the backend (src/App.jsx:54, 65, 80, 97). */
  datatype Call =
    | GetSlots
    | GetBooking(email: string)
    | SubmitBooking(email: string, name: string, visit1: string, visit2: string)
    | CancelBookingFor(email: string)

  /** All fields of the session at one moment. */
  datatype State = State(
    email: string, name: string, otpSent: bool, otp: string, timer: int, isVerified: bool,
    slots: Catalog, selectedVisit1: string, selectedVisit2: string,
    booking: Option<Booking>, message: string)

  /** The state right after the component mounts (src/App.jsx:8-19). */
  const Initial := State("", "", false, "", 0, false, Catalog([], []), "", "", None, "")

  class BookingSession {
    var email: string
    var name: string
    var otpSent: bool
    var otp: string
    var timer: int
    var isVerified: bool
    var slots: Catalog
    var selectedVisit1: string
    var selectedVisit2: string
    var booking: Option<Booking>
    var message: string

    ghost function Snapshot(): State
      reads this
    {
      State(email, name, otpSent, otp, timer, isVerified, slots, selectedVisit1, selectedVisit2, booking, message)
    }

    /**
     * What every handler keeps: the countdown stays within 0..180 and runs
     * only after a code was sent; the two choices are one day apart; a held
     * booking has a Visit-1 date.
     */
    ghost predicate Valid()
      reads this
    {
      && 0 <= timer <= CodeCooldown
      && (timer > 0 ==> otpSent)
      && Consistent(selectedVisit1, selectedVisit2)
      && (booking.Some? ==> booking.value.visit1Date != "")
    }

    constructor ()
      ensures Valid() && Snapshot() == Initial
    {
      email, name, otpSent, otp, timer, isVerified := "", "", false, "", 0, false;
      slots, selectedVisit1, selectedVisit2, booking, message := Catalog([], []), "", "", None, "";
    }

    /** Typing in the name box (src/App.jsx:154). */
    method SetName(n: string)
      requires Valid()
      modifies this
      ensures Valid()
      ensures Snapshot() == old(Snapshot()).(name := n)
    {
      name := n;
    }

    /** Typing in the code box (src/App.jsx:159). */
    method SetOtp(code: string)
      requires Valid()
      modifies this
      ensures Valid()
      ensures Snapshot() == old(Snapshot()).(otp := code)
    {
      otp := code;
    }

    /**
     * Typing in the email box (src/App.jsx:155) and the effect that runs
     * when `email` changes (src/App.jsx:29-32): any pending code and its
     * countdown are dropped. Setting the same value re-renders nothing and
     * runs no effect.
     */
    method ChangeEmail(e: string)
      requires Valid()
      modifies this
      ensures Valid()
      ensures e != old(email) ==> Snapshot() == old(Snapshot()).(email := e, otpSent := false, timer := 0)
      ensures e == old(email) ==> Snapshot() == old(Snapshot())
    {
      if e != email {
        email := e;
        otpSent := false;
        timer := 0;
      }
    }

    /** `sendOtp` (src/App.jsx:34-39): both name and email are required. */
    method SendOtp()
      requires Valid()
      modifies this
      ensures Valid()
      ensures old(email) == "" || old(name) == "" ==>
        Snapshot() == old(Snapshot()).(message := NameAndEmailRequired)
      ensures old(email) != "" && old(name) != "" ==>
        Snapshot() == old(Snapshot()).(otpSent := true, timer := CodeCooldown, message := CodeSentMessage(old(email)))
    {
      if email == "" || name == "" {
        message := NameAndEmailRequired;
        return;
      }
      otpSent := true;
      timer := CodeCooldown;
      message := CodeSentMessage(email);
    }

    /**
     * A press of the send button (src/App.jsx:156): it is shown only
     * before verification and is disabled while the countdown runs, so a
     * press then has no effect at all.
     */
    method PressSendOtp()
      requires Valid()
      modifies this
      ensures Valid()
      ensures old(isVerified) || old(timer) > 0 ==> Snapshot() == old(Snapshot())
      ensures !old(isVerified) && old(timer) == 0 && (old(email) == "" || old(name) == "") ==>
        Snapshot() == old(Snapshot()).(message := NameAndEmailRequired)
      ensures !old(isVerified) && old(timer) == 0 && old(email) != "" && old(name) != "" ==>
        Snapshot() == old(Snapshot()).(otpSent := true, timer := CodeCooldown, message := CodeSentMessage(old(email)))
    {
      if !isVerified && timer == 0 {
        SendOtp();
      }
    }

    /**
     * One second of the countdown (src/App.jsx:22-27): the interval exists
     * only while `timer > 0`, and each firing takes exactly one second off.
     */
    method Tick()
      requires Valid()
      modifies this
      ensures Valid()
      ensures old(timer) > 0 ==> Snapshot() == old(Snapshot()).(timer := old(timer) - 1)
      ensures old(timer) == 0 ==> Snapshot() == old(Snapshot())
    {
      if timer > 0 {
        timer := timer - 1;
      }
    }

    /**
     * `verifyOtp` (src/App.jsx:41-49). On the accepted code the session
     * becomes verified and starts `fetchSlots` and `fetchBooking`, in that
     * order; any other code only sets the error message.
     */
    method VerifyOtp() returns (calls: seq<Call>)
      requires Valid()
      modifies this
      ensures Valid()
      ensures old(otp) == AcceptedCode ==>
        Snapshot() == old(Snapshot()).(isVerified := true) && calls == [GetSlots, GetBooking(old(email))]
      ensures old(otp) != AcceptedCode ==>
        Snapshot() == old(Snapshot()).(message := InvalidCode) && calls == []
    {
      if otp == AcceptedCode {
        isVerified := true;
        calls := [GetSlots, GetBooking(email)];
      } else {
        message := InvalidCode;
        calls := [];
      }
    }

    /**
     * Completion of `fetchSlots` (src/App.jsx:51-60): a response replaces
     * the whole catalog; a failed request keeps the catalog it had.
     */
    method FetchSlots(reply: Reply<Catalog>)
      requires Valid()
      modifies this
      ensures Valid()
      ensures reply.Response? ==> Snapshot() == old(Snapshot()).(slots := reply.data)
      ensures reply.TransportError? ==> Snapshot() == old(Snapshot()).(message := SlotsFetchFailed)
    {
      match reply
      case Response(catalog) =>
        slots := catalog;
      case TransportError =>
        message := SlotsFetchFailed;
    }

    /**
     * Completion of `fetchBooking` (src/App.jsx:62-71): the booking is set
     * only from a response that has a Visit-1 date; an empty response
     * leaves whatever booking was held.
     */
    method FetchBooking(reply: Reply<Option<Booking>>)
      requires Valid()
      modifies this
      ensures Valid()
      ensures reply.Response? && reply.data.Some? && reply.data.value.visit1Date != "" ==>
        Snapshot() == old(Snapshot()).(booking := reply.data)
      ensures reply.Response? && (reply.data.None? || reply.data.value.visit1Date == "") ==>
        Snapshot() == old(Snapshot())
      ensures reply.TransportError? ==> Snapshot() == old(Snapshot()).(message := BookingFetchFailed)
    {
      match reply
      case Response(data) =>
        if data.Some? && data.value.visit1Date != "" {
          booking := data;
        }
      case TransportError =>
        message := BookingFetchFailed;
    }

    /**
     * `handleBooking` (src/App.jsx:73-92). With a choice missing nothing is
     * sent. Otherwise the two composite values are submitted; success
     * starts `fetchBooking` and `fetchSlots`, in that order; a refusal
     * shows the backend's reason, or a generic one when it gave none.
     * Neither outcome touches the choices or the booking.
     */
    method HandleBooking(reply: Reply<SubmitReply>) returns (calls: seq<Call>)
      requires Valid()
      modifies this
      ensures Valid()
      ensures old(selectedVisit1) == "" || old(selectedVisit2) == "" ==>
        Snapshot() == old(Snapshot()).(message := SelectBothSlots) && calls == []
      ensures old(selectedVisit1) != "" && old(selectedVisit2) != "" ==>
        var submitted := SubmitBooking(old(email), old(name), old(selectedVisit1), old(selectedVisit2));
        match reply
        case Response(SubmitReply(true, _)) =>
          Snapshot() == old(Snapshot()).(message := BookingSucceeded)
          && calls == [submitted, GetBooking(old(email)), GetSlots]
        case Response(SubmitReply(false, reason)) =>
          Snapshot() == old(Snapshot()).(message := if reason.Some? && reason.value != "" then reason.value else BookingFailed)
          && calls == [submitted]
        case TransportError =>
          Snapshot() == old(Snapshot()).(message := SubmitError) && calls == [submitted]
      // a submitted pair is always one day apart, though the handler itself does not check it
      ensures forall c :: c in calls && c.SubmitBooking? ==> c.visit1 != "" && c.visit2 != "" && Consistent(c.visit1, c.visit2)
    {
      if selectedVisit1 == "" || selectedVisit2 == "" {
        message := SelectBothSlots;
        return [];
      }
      calls := [SubmitBooking(email, name, selectedVisit1, selectedVisit2)];
      match reply
      case Response(body) =>
        if body.success {
          message := BookingSucceeded;
          calls := calls + [GetBooking(email), GetSlots];
        } else {
          message := if body.message.Some? && body.message.value != "" then body.message.value else BookingFailed;
        }
      case TransportError =>
        message := SubmitError;
    }

    /**
     * `cancelBooking` (src/App.jsx:94-111). Success drops the booking and
     * both choices and starts `fetchSlots`; a refusal or a failed request
     * changes only the message, each with its own text.
     */
    method CancelBooking(reply: Reply<CancelReply>) returns (calls: seq<Call>)
      requires Valid()
      modifies this
      ensures Valid()
      ensures reply.Response? && reply.data.success ==>
        Snapshot() == old(Snapshot()).(booking := None, selectedVisit1 := "", selectedVisit2 := "", message := BookingCancelled)
        && calls == [CancelBookingFor(old(email)), GetSlots]
      ensures reply.Response? && !reply.data.success ==>
        Snapshot() == old(Snapshot()).(message := CancellationFailed) && calls == [CancelBookingFor(old(email))]
      ensures reply.TransportError? ==>
        Snapshot() == old(Snapshot()).(message := CancelError) && calls == [CancelBookingFor(old(email))]
    {
      calls := [CancelBookingFor(email)];
      match reply
      case Response(body) =>
        if body.success {
          booking := None;
          selectedVisit1 := "";
          selectedVisit2 := "";
          calls := calls + [GetSlots];
          message := BookingCancelled;
        } else {
          message := CancellationFailed;
        }
      case TransportError =>
        message := CancelError;
    }

    /** The Reset button (src/App.jsx:191): both choices are cleared and `fetchSlots` starts. */
    method Reset() returns (calls: seq<Call>)
      requires Valid()
      modifies this
      ensures Valid()
      ensures Snapshot() == old(Snapshot()).(selectedVisit1 := "", selectedVisit2 := "") && calls == [GetSlots]
    {
      selectedVisit1, selectedVisit2 := "", "";
      calls := [GetSlots];
    }

    /**
     * Choosing in the Visit-1 box (src/App.jsx:177-181). The box offers the
     * placeholder and the values of the filtered Visit-1 list, and nothing
     * at all when the filter throws, so the choices stay one day apart.
     */
    method SelectVisit1(v: string)
      requires Valid()
      requires FilteredSlots(slots, selectedVisit1, selectedVisit2).Ok?
      requires v in SelectOptions(FilteredSlots(slots, selectedVisit1, selectedVisit2).value.visit1)
      modifies this
      ensures Valid()
      ensures Snapshot() == old(Snapshot()).(selectedVisit1 := v)
    {
      ChooseVisit1Consistent(slots, selectedVisit1, selectedVisit2, v);
      selectedVisit1 := v;
    }

    /** Choosing in the Visit-2 box (src/App.jsx:183-187), symmetric to `SelectVisit1`. */
    method SelectVisit2(v: string)
      requires Valid()
      requires FilteredSlots(slots, selectedVisit1, selectedVisit2).Ok?
      requires v in SelectOptions(FilteredSlots(slots, selectedVisit1, selectedVisit2).value.visit2)
      modifies this
      ensures Valid()
      ensures Snapshot() == old(Snapshot()).(selectedVisit2 := v)
    {
      ChooseVisit2Consistent(slots, selectedVisit1, selectedVisit2, v);
      selectedVisit2 := v;
    }
  }
}
