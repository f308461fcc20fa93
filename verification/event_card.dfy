/**
 * The numbers and captions the event card derives from an event
 * (apps/mobile/components/EventCard.tsx): attendee count, spots left,
 * the FULL badge, the scarcity caption and the host label.
 */
module EventCard {

  import opened Wrappers
  import Text

  const BE_THE_FIRST: string := "Be the first to join \U{1F4AA}"
  const ONE_SPOT_LEFT: string := "1 spot left"

  /** `attendee_count || 0`: a missing count reads as zero. */
  function AttendeeCount(attendeeCount: Option<int>): (n: int)
    ensures attendeeCount.None? ==> n == 0
    ensures attendeeCount.Some? ==> n == attendeeCount.value
  {
    match attendeeCount
    case None => 0
    case Some(c) => if c != 0 then c else 0
  }

  /** Places still free; `None` for an unlimited (null) capacity, otherwise never negative. */
  function SpotsLeft(capacity: Option<int>, attendees: int): (spots: Option<int>)
    ensures spots.None? <==> capacity.None?
    ensures spots.Some? ==>
      && spots.value >= 0
      && spots.value >= capacity.value - attendees
      && (spots.value == 0 || spots.value == capacity.value - attendees)
  {
    match capacity
    case None => None
    case Some(c) => Some(if c - attendees > 0 then c - attendees else 0)
  }

  /** The FULL badge: limited and no spot left. */
  function IsFull(capacity: Option<int>, attendees: int): (full: bool)
    ensures full <==> capacity.Some? && attendees >= capacity.value
  {
    var spots := SpotsLeft(capacity, attendees);
    capacity.Some? && spots.Some? && spots.value <= 0
  }

  /**
   * The caption under the card: who has joined or how many places remain.
   * It invites the first join exactly when nobody attends, whatever the
   * capacity.
   */
  function ScarcityCopy(capacity: Option<int>, attendees: int): (copy: string)
    ensures copy == BE_THE_FIRST <==> attendees == 0
  {
    var spots := SpotsLeft(capacity, attendees);
    if capacity.None? then
      if attendees == 0 then BE_THE_FIRST
      else
        CountCaptionIsNotInvitation(attendees, " joined");
        Text.IntToDecimal(attendees) + " joined"
    else
      if attendees == 0 then BE_THE_FIRST
      else if spots == Some(1) then ONE_SPOT_LEFT
      else
        CountCaptionIsNotInvitation(spots.value, " spots left");
        Text.IntToDecimal(spots.value) + " spots left"
  }

  /** A number followed by a plain-text suffix never reads as the first-join invitation. */
  lemma CountCaptionIsNotInvitation(n: int, suffix: string)
    requires |suffix| >= 1 && suffix[|suffix| - 1] != BE_THE_FIRST[|BE_THE_FIRST| - 1]
    ensures Text.IntToDecimal(n) + suffix != BE_THE_FIRST
  {
    var copy := Text.IntToDecimal(n) + suffix;
    assert copy[|copy| - 1] == suffix[|suffix| - 1];
  }

  /** With nobody attending the caption invites the first join, even on a full zero-capacity card. */
  lemma NoAttendeesInvitesFirstJoin(capacity: Option<int>)
    ensures ScarcityCopy(capacity, 0) == BE_THE_FIRST
    ensures capacity == Some(0) ==> IsFull(capacity, 0)
  {
  }

  /** An unlimited event with attendees shows how many joined, and the number reads back exactly. */
  lemma UnlimitedShowsJoined(attendees: int)
    requires attendees != 0
    ensures var copy := ScarcityCopy(None, attendees);
      && copy == Text.IntToDecimal(attendees) + " joined"
      && Text.ParseInt(copy[..|copy| - |" joined"|]) == Some(attendees)
  {
    var copy := ScarcityCopy(None, attendees);
    assert copy[..|copy| - |" joined"|] == Text.IntToDecimal(attendees);
    Text.IntDecimalRoundTrip(attendees);
  }

  /** A limited event with attendees shows "1 spot left" exactly when one place remains. */
  lemma OneSpotLeftExactly(capacity: int, attendees: int)
    requires attendees != 0
    ensures ScarcityCopy(Some(capacity), attendees) == ONE_SPOT_LEFT
      <==> SpotsLeft(Some(capacity), attendees) == Some(1)
  {
    var spots := SpotsLeft(Some(capacity), attendees).value;
    if spots != 1 {
      var copy := Text.IntToDecimal(spots) + " spots left";
      assert copy[|copy| - 1] == 't';
      assert ONE_SPOT_LEFT[|ONE_SPOT_LEFT| - 1] == 't';
      assert |copy| >= |" spots left"| + 1 > |ONE_SPOT_LEFT|;
    }
  }

  /**
   * Otherwise a limited event with attendees shows the number of places
   * left, "0 spots left" on a full card; the number reads back exactly.
   */
  lemma LimitedShowsSpotsLeft(capacity: int, attendees: int)
    requires attendees != 0
    requires SpotsLeft(Some(capacity), attendees) != Some(1)
    ensures var spots := SpotsLeft(Some(capacity), attendees).value;
      var copy := ScarcityCopy(Some(capacity), attendees);
      && copy == Text.IntToDecimal(spots) + " spots left"
      && Text.ParseInt(copy[..|copy| - |" spots left"|]) == Some(spots)
      && (IsFull(Some(capacity), attendees) ==> copy == "0 spots left")
  {
    var spots := SpotsLeft(Some(capacity), attendees).value;
    var copy := ScarcityCopy(Some(capacity), attendees);
    assert copy[..|copy| - |" spots left"|] == Text.IntToDecimal(spots);
    Text.IntDecimalRoundTrip(spots);
    if IsFull(Some(capacity), attendees) {
      assert spots == 0 && Text.IntToDecimal(0) == "0";
    }
  }

  /** The host byline: the display name, or else the text of the email before its first "@". */
  function HostLabel(displayName: Option<string>, email: string): (byline: string)
    ensures displayName.Some? && displayName.value != "" ==> byline == displayName.value
  {
    if displayName.Some? && displayName.value != "" then displayName.value
    else Text.FirstPiece(email, '@')
  }

  /** Without a display name the byline is the email's local part: the longest "@"-free prefix. */
  lemma HostLabelFallsBackToLocalPart(displayName: Option<string>, email: string)
    requires displayName.None? || displayName.value == ""
    ensures var byline := HostLabel(displayName, email);
      && byline <= email
      && '@' !in byline
      && (|byline| < |email| ==> email[|byline|] == '@')
  {
    Text.FirstPieceIsPrefixBeforeSeparator(email, '@');
  }
}
