/**
 Status resolution of payment orders (lib/orders/status.ts).

 Provider statuses are free text; the source classifies them with case-insensitive
 regular expressions, in a fixed order.  The main result is that this decision list
 is the join of a total order on statuses, which is what makes notifications
 insensitive to order and repetition (see module Orders).
 */
module PaymentStatuses {

  datatype PaymentStatus = Pending | Processing | Succeeded | Failed | Cancelled

  const ORDER_EXPIRED := "ORDER_EXPIRED"
  const CTF_BILL_CAPTURED := "CTF_BILL_CAPTURED"

  // ---------- the regular expressions ----------

  function AsciiUpper(c: char): char {
    if 'a' <= c <= 'z' then (c as int - 32) as char else c
  }

  predicate MatchesAt(text: string, word: string, at: nat) {
    && at + |word| <= |text|
    && forall k | 0 <= k < |word| :: AsciiUpper(text[at + k]) == word[k]
  }

  /** `new RegExp(word, "i").test(text)` for an upper-case literal word. */
  predicate Mentions(text: string, word: string) {
    exists at: nat | at <= |text| :: MatchesAt(text, word, at)
  }

  predicate MentionsAny(text: string, words: seq<string>) {
    exists i | 0 <= i < |words| :: Mentions(text, words[i])
  }

  predicate IsClosing(providerStatus: string) {
    MentionsAny(providerStatus, ["CLOSE", "CANCEL", "EXPIRE"])
  }

  predicate IsFailure(providerStatus: string) {
    MentionsAny(providerStatus, ["FAIL", "ERROR", "CLOSE", "CANCEL"])
  }

  predicate IsPending(providerStatus: string) {
    MentionsAny(providerStatus, ["WAIT", "PEND", "BUYER_PAY", "USERPAYING", "PROCESS", "NOTPAY"])
  }

  // ---------- status.ts ----------

  predicate IsTerminal(status: PaymentStatus) {
    status.Succeeded? || status.Failed? || status.Cancelled?
  }

  predicate IsOpen(status: PaymentStatus) {
    status.Pending? || status.Processing?
  }

  function Resolve(current: PaymentStatus, providerStatus: string, succeeds: bool): PaymentStatus {
    if succeeds then
      Succeeded
    else if IsClosing(providerStatus) then
      if current == Succeeded then current else Cancelled
    else if IsFailure(providerStatus) then
      if IsTerminal(current) then current else Failed
    else if IsPending(providerStatus) then
      if IsTerminal(current) then current else Processing
    else
      if IsTerminal(current) then current else Processing
  }

  // ---------- the order behind it ----------

  /** Pending < Processing < Failed < Cancelled < Succeeded. */
  function Rank(status: PaymentStatus): nat {
    match status
    case Pending => 0
    case Processing => 1
    case Failed => 2
    case Cancelled => 3
    case Succeeded => 4
  }

  function Join(a: PaymentStatus, b: PaymentStatus): PaymentStatus {
    if Rank(a) < Rank(b) then b else a
  }

  /** What a notification asks for, whatever the order's status is. */
  function Target(providerStatus: string, succeeds: bool): PaymentStatus {
    if succeeds then Succeeded
    else if IsClosing(providerStatus) then Cancelled
    else if IsFailure(providerStatus) then Failed
    else Processing
  }

  lemma ResolveIsJoin(current: PaymentStatus, providerStatus: string, succeeds: bool)
    ensures Resolve(current, providerStatus, succeeds) == Join(current, Target(providerStatus, succeeds))
  {
  }

  lemma MentionsOneOf(text: string, words: seq<string>, i: nat)
    requires i < |words| && Mentions(text, words[i])
    ensures MentionsAny(text, words)
  {
  }

  /**
   What a text that is not a success does to a status: closing words cancel whatever has not succeeded, failing words
   fail what is open, and everything else, waiting words included, leaves or makes an open order PROCESSING.
   */
  lemma TextDecides(current: PaymentStatus, text: string)
    ensures var closing := Mentions(text, "CLOSE") || Mentions(text, "CANCEL") || Mentions(text, "EXPIRE");
            var failing := Mentions(text, "FAIL") || Mentions(text, "ERROR");
            Resolve(current, text, false)
            == if current.Succeeded? then Succeeded
               else if closing then Cancelled
               else if current.Failed? || current.Cancelled? then current
               else if failing then Failed
               else Processing
  {
    var closings, failures := ["CLOSE", "CANCEL", "EXPIRE"], ["FAIL", "ERROR", "CLOSE", "CANCEL"];
    forall i: nat | i < 3 && Mentions(text, closings[i]) ensures IsClosing(text) {
      MentionsOneOf(text, closings, i);
    }
    forall i: nat | i < 4 && Mentions(text, failures[i]) ensures IsFailure(text) {
      MentionsOneOf(text, failures, i);
    }
    assert closings[0] == "CLOSE" && closings[1] == "CANCEL" && closings[2] == "EXPIRE";
    assert failures[0] == "FAIL" && failures[1] == "ERROR";
  }

  /** Two texts that differ in the case of their letters only. */
  predicate SameLetters(a: string, b: string) {
    && |a| == |b|
    && forall i | 0 <= i < |a| ::
         || a[i] == b[i]
         || ('a' <= a[i] <= 'z' && b[i] as int == a[i] as int - 32)
         || ('a' <= b[i] <= 'z' && a[i] as int == b[i] as int - 32)
  }

  /** Such texts mention the same words. */
  lemma MentionsIgnoresCase(a: string, b: string, word: string)
    requires SameLetters(a, b)
    ensures Mentions(a, word) <==> Mentions(b, word)
  {
    forall at: nat | at <= |a| ensures MatchesAt(a, word, at) <==> MatchesAt(b, word, at) {
      forall k | 0 <= k < |word| && at + |word| <= |a|
        ensures AsciiUpper(a[at + k]) == word[k] <==> AsciiUpper(b[at + k]) == word[k] {
      }
    }
  }

  lemma ExpiryIsClosing()
    ensures IsClosing(ORDER_EXPIRED)
  {
    assert MatchesAt(ORDER_EXPIRED, "EXPIRE", 6);
    assert Mentions(ORDER_EXPIRED, ["CLOSE", "CANCEL", "EXPIRE"][2]);
  }
}
