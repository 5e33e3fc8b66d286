/**
 * `select_item_from_list`: the console is a stream of reply lines; a reply is accepted when
 * it is all decimal digits and its value lies in 1..upper_bound, and every rejected reply
 * is answered with a fresh prompt. Running out of replies (end of input) yields None.
 * The deck and model menus built on it are modelled by their index arithmetic only.
 */
module Selection {
  import opened Wrappers

  predicate IsDigit(ch: char)
  {
    '0' <= ch <= '9'
  }

  /** `str.isdigit()` over ASCII: at least one character, and every character a digit. */
  predicate IsDigits(s: string)
  {
    |s| > 0 && forall i :: 0 <= i < |s| ==> IsDigit(s[i])
  }

  /** `int(s)` for a string of decimal digits (leading zeros allowed). */
  function DigitsValue(s: string): nat
    requires forall i :: 0 <= i < |s| ==> IsDigit(s[i])
    decreases |s|
  {
    if |s| == 0 then 0
    else
      assert IsDigit(s[|s| - 1]);
      DigitsValue(s[..|s| - 1]) * 10 + (s[|s| - 1] as int - '0' as int)
  }

  function DigitChar(d: nat): char
    requires d < 10
  {
    ('0' as int + d) as char
  }

  /** `str(n)`: the decimal digits a user types to choose option `n`. */
  function Decimal(n: nat): string
    decreases n
  {
    if n < 10 then [DigitChar(n)] else Decimal(n / 10) + [DigitChar(n % 10)]
  }

  /** Reading back what `str(n)` printed gives `n`. */
  lemma {:induction false} DecimalRoundTrip(n: nat)
    ensures IsDigits(Decimal(n))
    ensures DigitsValue(Decimal(n)) == n
  {
    if n >= 10 {
      DecimalRoundTrip(n / 10);
      var s := Decimal(n);
      assert s[..|s| - 1] == Decimal(n / 10);
    }
  }

  /** The loop condition of select_item_from_list, negated: the reply it stops at. */
  predicate Accepts(reply: string, upperBound: int)
  {
    IsDigits(reply) && 1 <= DigitsValue(reply) <= upperBound
  }

  /** An accepted selection and the position of the first reply not yet read. */
  datatype Reading = Reading(value: nat, next: nat)

  /** The first reply at or after `from` that is accepted, with the position just after it. */
  function FirstAccepted(replies: seq<string>, from: nat, upperBound: int): (r: Option<Reading>)
    requires from <= |replies|
    ensures r.Some? ==> from < r.value.next <= |replies|
    ensures r.Some? ==> Accepts(replies[r.value.next - 1], upperBound)
    ensures r.Some? ==> r.value.value == DigitsValue(replies[r.value.next - 1])
    ensures r.Some? ==> 1 <= r.value.value <= upperBound
    ensures r.Some? ==> forall j :: from <= j < r.value.next - 1 ==> !Accepts(replies[j], upperBound)
    ensures r.None? <==> forall j :: from <= j < |replies| ==> !Accepts(replies[j], upperBound)
    decreases |replies| - from
  {
    if from == |replies| then None
    else if Accepts(replies[from], upperBound) then Some(Reading(DigitsValue(replies[from]), from + 1))
    else FirstAccepted(replies, from + 1, upperBound)
  }

  /** Every option on the menu can be chosen by typing its number. */
  lemma OptionSelectable(n: nat, upperBound: int)
    requires 1 <= n <= upperBound
    ensures FirstAccepted([Decimal(n)], 0, upperBound) == Some(Reading(n, 1))
  {
    DecimalRoundTrip(n);
  }

  /**
   * select_item_from_list: reads replies from position `from` until one is accepted and
   * returns its value with the position after it; None when the replies run out first.
   */
  method SelectItemFromList(upperBound: int, replies: seq<string>, from: nat) returns (selection: Option<nat>, next: nat)
    requires from <= |replies|
    ensures FirstAccepted(replies, from, upperBound)
            == if selection.Some? then Some(Reading(selection.value, next)) else None
    ensures selection.Some? ==> 1 <= selection.value <= upperBound
    ensures selection.Some? ==> from < next <= |replies| && Accepts(replies[next - 1], upperBound)
    ensures selection.None? ==> next == |replies|
  {
    if from == |replies| {
      return None, from;
    }
    var reply := replies[from];
    next := from + 1;
    while !Accepts(reply, upperBound)
      invariant from < next <= |replies|
      invariant reply == replies[next - 1]
      invariant FirstAccepted(replies, from, upperBound) == FirstAccepted(replies, next - 1, upperBound)
      decreases |replies| - next
    {
      if next == |replies| {
        return None, next;
      }
      reply := replies[next];
      next := next + 1;
    }
    selection := Some(DigitsValue(reply));
  }

  /** What the deck menu resolves to: "1- Create a new deck" or an index into the deck list. */
  datatype DeckChoice = NewDeck | ExistingDeck(index: nat)

  /**
   * select_deck's index arithmetic: options run 1..|decks|+1 but the bound handed to the
   * validator is |decks|, so the last deck can never be chosen, and with no decks at all
   * not even "create a new deck" is accepted.
   */
  function SelectDeck(decks: seq<string>, replies: seq<string>): (r: Option<DeckChoice>)
    ensures r.Some? && r.value.ExistingDeck? ==> r.value.index < |decks| - 1
    ensures |decks| == 0 ==> r.None?
  {
    match FirstAccepted(replies, 0, |decks|)
    case None => None
    case Some(d) => Some(if d.value == 1 then NewDeck else ExistingDeck(d.value - 2))
  }

  /** Every deck but the last is reachable. */
  lemma DeckReachable(decks: seq<string>, i: nat)
    requires i + 1 < |decks|
    ensures SelectDeck(decks, [Decimal(i + 2)]) == Some(ExistingDeck(i))
  {
    OptionSelectable(i + 2, |decks|);
  }

  /** "1- Create a new deck" is accepted as soon as there is at least one deck. */
  lemma NewDeckReachable(decks: seq<string>)
    requires |decks| >= 1
    ensures SelectDeck(decks, [Decimal(1)]) == Some(NewDeck)
  {
    OptionSelectable(1, |decks|);
  }

  /** The last deck cannot be chosen, whatever is typed. */
  lemma LastDeckUnreachable(decks: seq<string>, replies: seq<string>)
    requires |decks| > 0
    ensures SelectDeck(decks, replies) != Some(ExistingDeck(|decks| - 1))
  {
  }

  /** select_model's index arithmetic: option k picks models[k - 1]. */
  function SelectModel(models: seq<string>, replies: seq<string>): (r: Option<nat>)
    ensures r.Some? ==> r.value < |models|
  {
    match FirstAccepted(replies, 0, |models|)
    case None => None
    case Some(m) => Some(m.value - 1)
  }

  /** Every model can be chosen. */
  lemma ModelReachable(models: seq<string>, i: nat)
    requires i < |models|
    ensures SelectModel(models, [Decimal(i + 1)]) == Some(i)
  {
    OptionSelectable(i + 1, |models|);
  }
}
