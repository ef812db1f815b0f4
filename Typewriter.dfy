/**
 * The typewriter headline: three phrases, each a normal part and a bold
 * part joined by a space, typed one character per tick, held, deleted one
 * character per tick, then replaced by the next phrase. The tick timeout
 * and the one-second "start deleting" timeout are explicit events (`Tick`,
 * `DeleteTimerFires`); the delay between ticks is a value (`Delay`).
 */
module Typewriter {
  import opened JsText

  datatype PhraseParts = PhraseParts(normal: string, bold: string)

  const Phrases: seq<PhraseParts> := [
    PhraseParts("Hostel", "Living"),
    PhraseParts("Comfort", "Guaranteed"),
    PhraseParts("Book Now,", "Stay Smart")
  ]

  predicate ValidIndex(p: int) { 0 <= p < |Phrases| }

  /** The full text of phrase `p`: its normal part, a space, its bold part. */
  function Phrase(p: int): (text: string)
    requires ValidIndex(p)
    ensures |text| == |Phrases[p].normal| + 1 + |Phrases[p].bold|
    ensures text[..|Phrases[p].normal|] == Phrases[p].normal
    ensures text[|Phrases[p].normal|] == ' '
    ensures text[|Phrases[p].normal| + 1..] == Phrases[p].bold
  {
    Phrases[p].normal + " " + Phrases[p].bold
  }

  /** The phrase shown before `p` in the cycle. */
  function Previous(p: int): (q: int)
    requires ValidIndex(p)
    ensures ValidIndex(q) && (q + 1) % |Phrases| == p
  {
    (p + |Phrases| - 1) % |Phrases|
  }

  /**
   * The component's state. `deleteScheduled` stands for the pending
   * one-second timeout that will switch to deleting.
   */
  datatype TypeState = TypeState(
    typed: string,
    phraseIndex: int,
    charIndex: int,
    isDeleting: bool,
    deleteScheduled: bool)

  /** The state after mounting, or at the start of phrase `p`. */
  function Start(p: int): TypeState {
    TypeState("", p, 0, false, false)
  }

  /** Milliseconds until the next tick: faster while deleting. */
  function Delay(isDeleting: bool): (ms: nat)
    ensures ms == 50 <==> isDeleting
    ensures ms == 100 <==> !isDeleting
  {
    if isDeleting then 50 else 100
  }

  /**
   * One tick. Typing shows one more character of the phrase and, on
   * reaching its end, schedules the switch to deleting; deleting shows one
   * character fewer and, from position 0, moves on to the next phrase.
   * Positions are the ones captured when the tick was scheduled.
   */
  function Step(s: TypeState): (next: TypeState)
    requires ValidIndex(s.phraseIndex)
    ensures ValidIndex(next.phraseIndex)
    ensures !s.isDeleting ==> next.charIndex == s.charIndex + 1 && next.phraseIndex == s.phraseIndex
    ensures s.isDeleting ==> next.charIndex == s.charIndex - 1
    ensures next.phraseIndex != s.phraseIndex <==> s.isDeleting && s.charIndex == 0
  {
    var phrase := Phrase(s.phraseIndex);
    if !s.isDeleting then
      s.(typed := Slice(phrase, 0, s.charIndex + 1),
         charIndex := s.charIndex + 1,
         deleteScheduled := if s.charIndex + 1 == |phrase| then true else s.deleteScheduled)
    else
      var shorter := s.(typed := Slice(phrase, 0, s.charIndex - 1), charIndex := s.charIndex - 1);
      if s.charIndex == 0 then
        shorter.(isDeleting := false, phraseIndex := (s.phraseIndex + 1) % |Phrases|)
      else
        shorter
  }

  /** The one-second timeout: if it is pending, deleting starts. */
  function TimerFires(s: TypeState): (next: TypeState)
    ensures s.deleteScheduled ==> next.isDeleting && !next.deleteScheduled
    ensures !s.deleteScheduled ==> next == s
    ensures next.typed == s.typed && next.charIndex == s.charIndex && next.phraseIndex == s.phraseIndex
  {
    if s.deleteScheduled then s.(isDeleting := true, deleteScheduled := false) else s
  }

  /** `n` ticks in a row. */
  function Steps(s: TypeState, n: nat): (last: TypeState)
    requires ValidIndex(s.phraseIndex)
    ensures ValidIndex(last.phraseIndex)
    decreases n
  {
    if n == 0 then s else Step(Steps(s, n - 1))
  }

  /**
   * The states the component can reach: the text is always the phrase cut
   * at the current position; the one exception is the tick that wraps to
   * the next phrase (position -1), which leaves the previous phrase minus
   * its last character. Deleting and a pending delete never overlap, and a
   * delete is only pending once the whole phrase has been typed.
   */
  ghost predicate Reachable(s: TypeState) {
    && ValidIndex(s.phraseIndex)
    && s.charIndex >= -1
    && (s.charIndex >= 0 ==> s.typed == Slice(Phrase(s.phraseIndex), 0, s.charIndex))
    && (s.charIndex == -1 ==>
          s.typed == Slice(Phrase(Previous(s.phraseIndex)), 0, -1) && !s.isDeleting && !s.deleteScheduled)
    && (s.isDeleting ==> s.charIndex >= 0 && !s.deleteScheduled)
    && (s.deleteScheduled ==> s.charIndex >= |Phrase(s.phraseIndex)|)
  }

  lemma StartReachable(p: int)
    requires ValidIndex(p)
    ensures Reachable(Start(p))
  {
  }

  /** A tick keeps the state reachable. */
  lemma StepPreservesReachable(s: TypeState)
    requires Reachable(s)
    ensures Reachable(Step(s))
  {
    var next := Step(s);
    if s.isDeleting && s.charIndex == 0 {
      assert Previous(next.phraseIndex) == s.phraseIndex;
    }
  }

  /** The one-second timeout keeps the state reachable. */
  lemma TimerPreservesReachable(s: TypeState)
    requires Reachable(s)
    ensures Reachable(TimerFires(s))
  {
  }

  /** Outside the wrap tick, the typed text is a prefix of the current phrase. */
  lemma TypedIsPrefix(s: TypeState)
    requires Reachable(s) && s.charIndex >= 0
    ensures IsPrefix(s.typed, Phrase(s.phraseIndex))
    ensures |s.typed| == if s.charIndex < |Phrase(s.phraseIndex)| then s.charIndex else |Phrase(s.phraseIndex)|
  {
  }

  /**
   * The state `k` ticks after phrase `p` started: its first `k` characters
   * are typed, and the delete is pending once the whole phrase is.
   */
  function TypingAt(p: int, k: nat): TypeState
    requires ValidIndex(p)
  {
    TypeState(Slice(Phrase(p), 0, k), p, k, false, k >= |Phrase(p)|)
  }

  /** The state while deleting phrase `p` at position `j`: the phrase cut at `j`. */
  function DeletingAt(p: int, j: nat): TypeState
    requires ValidIndex(p)
  {
    TypeState(Slice(Phrase(p), 0, j), p, j, true, false)
  }

  /** One typing tick moves from position `k` to `k + 1`. */
  lemma TypingTick(p: int, k: nat)
    requires ValidIndex(p)
    ensures Step(TypingAt(p, k)) == TypingAt(p, k + 1)
  {
  }

  /** One deleting tick above position 0 moves from `j` to `j - 1`. */
  lemma DeletingTick(p: int, j: nat)
    requires ValidIndex(p) && j > 0
    ensures Step(DeletingAt(p, j)) == DeletingAt(p, j - 1)
  {
  }

  /**
   * Typing: `k` ticks after the start of phrase `p` the text is the first
   * `k` characters of the phrase (all of it once `k` passes its length),
   * and the delete is pending exactly when the whole phrase was typed.
   */
  lemma {:induction false} TypingProgress(p: int, k: nat)
    requires ValidIndex(p)
    ensures Steps(Start(p), k) == TypingAt(p, k)
    decreases k
  {
    if k == 0 {
      assert Slice(Phrase(p), 0, 0) == "";
    } else {
      TypingProgress(p, k - 1);
      TypingTick(p, k - 1);
    }
  }

  /**
   * Deleting from position `m`: `k <= m` ticks later the text is the
   * phrase cut at `m - k`, and the component is still deleting.
   */
  lemma {:induction false} DeletingProgress(p: int, m: nat, k: nat)
    requires ValidIndex(p) && k <= m
    ensures Steps(DeletingAt(p, m), k) == DeletingAt(p, m - k)
    decreases k
  {
    if k > 0 {
      DeletingProgress(p, m, k - 1);
      DeletingTick(p, m - (k - 1));
    }
  }

  /**
   * A full cycle: type phrase `p` (for as many extra ticks as pass before
   * the one-second timeout fires), delete it back to position 0, and two
   * ticks later the component is at the start of the next phrase.
   */
  lemma Cycle(p: int, extra: nat)
    requires ValidIndex(p)
    ensures var typedOut := Steps(Start(p), |Phrase(p)| + extra);
      typedOut.typed == Phrase(p) && typedOut.deleteScheduled &&
      Steps(TimerFires(typedOut), |Phrase(p)| + extra + 2) == Start((p + 1) % |Phrases|)
  {
    var m := |Phrase(p)| + extra;
    TypingProgress(p, m);
    TypedOut(p, m);
    DeleteAndWrap(p, m);
  }

  /** Once the whole phrase is typed, the delete is pending and the timeout starts deleting at `m`. */
  lemma TypedOut(p: int, m: nat)
    requires ValidIndex(p) && m >= |Phrase(p)|
    ensures TypingAt(p, m).typed == Phrase(p) && TypingAt(p, m).deleteScheduled
    ensures TimerFires(TypingAt(p, m)) == DeletingAt(p, m)
  {
  }

  /** Deleting from position `m` takes `m` ticks to reach 0 and two more to start the next phrase. */
  lemma DeleteAndWrap(p: int, m: nat)
    requires ValidIndex(p)
    ensures Steps(DeletingAt(p, m), m + 2) == Start((p + 1) % |Phrases|)
  {
    DeletingProgress(p, m, m);
    assert Steps(DeletingAt(p, m), m + 2) == Step(Step(Steps(DeletingAt(p, m), m)));
    WrapToNext(p);
  }

  /** From position 0 while deleting, two ticks reach the start of the next phrase. */
  lemma WrapToNext(p: int)
    requires ValidIndex(p)
    ensures Step(Step(DeletingAt(p, 0))) == Start((p + 1) % |Phrases|)
  {
    var wrapped := Step(DeletingAt(p, 0));
    assert wrapped.phraseIndex == (p + 1) % |Phrases| && wrapped.charIndex == -1;
    assert !wrapped.isDeleting && !wrapped.deleteScheduled;
    var next := (p + 1) % |Phrases|;
    assert Slice(Phrase(next), 0, 0) == "";
  }

  /**
   * The wrap tick: deleting at position 0 slices up to -1, so for one tick
   * the text is the finished phrase minus its last character, not empty.
   */
  lemma WrapShowsPreviousPhrase(p: int)
    requires ValidIndex(p)
    ensures Step(TypeState("", p, 0, true, false)).typed == Phrase(p)[..|Phrase(p)| - 1]
    ensures Step(TypeState("", p, 0, true, false)).typed != ""
  {
  }

  // ---------------------------------------------------------------- rendering

  /**
   * How the typed text is split for display: while it fits in the normal
   * part it is shown as normal text; beyond that the normal part is shown
   * whole and the bold span gets what follows the separating space.
   */
  function RenderSplit(typed: string, normal: string): (parts: (string, string))
    ensures |typed| <= |normal| ==> parts == (typed, "")
    ensures |typed| > |normal| ==> parts.0 == normal && parts.1 == typed[|normal| + 1..]
  {
    if |typed| <= |normal| then (typed, "") else (normal, SliceFrom(typed, |normal| + 1))
  }

  /**
   * At the wrap tick from phrase 0 the text still holds "Hostel Livin" while
   * the index already names phrase 1, so the headline shows "Comfort" in
   * normal type and "ivin" in bold for that one tick.
   */
  lemma WrapTickRender()
    ensures var s := Step(TypeState("", 0, 0, true, false));
      s.phraseIndex == 1 && RenderSplit(s.typed, Phrases[s.phraseIndex].normal) == ("Comfort", "ivin")
  {
    WrapShowsPreviousPhrase(0);
    var s := Step(TypeState("", 0, 0, true, false));
    assert Phrase(0) == "Hostel Living";
    assert s.typed == "Hostel Livin";
  }

  /**
   * When the typed text is a prefix of the phrase, the split shows a prefix
   * of the normal part and a prefix of the bold part, and together with the
   * space (once the text has passed it) they are exactly the typed text.
   */
  lemma RenderSplitReassembles(typed: string, normal: string, bold: string)
    requires IsPrefix(typed, normal + " " + bold)
    ensures var (n, b) := RenderSplit(typed, normal);
      IsPrefix(n, normal) && IsPrefix(b, bold) &&
      (|typed| <= |normal| ==> typed == n && b == "") &&
      (|typed| > |normal| ==> typed == n + " " + b)
  {
    var phrase := normal + " " + bold;
    if |typed| > |normal| {
      var b := SliceFrom(typed, |normal| + 1);
      assert b == phrase[|normal| + 1..|typed|];
      assert phrase[|normal| + 1..|typed|] == bold[..|typed| - |normal| - 1];
      assert typed == phrase[..|normal|] + " " + phrase[|normal| + 1..|typed|];
    } else {
      assert typed == phrase[..|typed|] == normal[..|typed|];
    }
  }

  /** In every state the component reaches outside the wrap tick, the display is a prefix of the phrase. */
  lemma RenderedIsPrefixOfPhrase(s: TypeState)
    requires Reachable(s) && s.charIndex >= 0
    ensures var (n, b) := RenderSplit(s.typed, Phrases[s.phraseIndex].normal);
      IsPrefix(n, Phrases[s.phraseIndex].normal) && IsPrefix(b, Phrases[s.phraseIndex].bold)
  {
    TypedIsPrefix(s);
    RenderSplitReassembles(s.typed, Phrases[s.phraseIndex].normal, Phrases[s.phraseIndex].bold);
  }

  // ---------------------------------------------------------------- component

  class Headline {
    var typedText: string
    var phraseIndex: int
    var charIndex: int
    var isDeleting: bool
    var deleteScheduled: bool

    function State(): TypeState
      reads this
    {
      TypeState(typedText, phraseIndex, charIndex, isDeleting, deleteScheduled)
    }

    ghost predicate Valid()
      reads this
    {
      Reachable(State())
    }

    constructor()
      ensures Valid() && State() == Start(0)
    {
      typedText := "";
      phraseIndex := 0;
      charIndex := 0;
      isDeleting := false;
      deleteScheduled := false;
    }

    /** The tick's delay for the current state. */
    function CurrentDelay(): (ms: nat)
      reads this
      ensures ms == Delay(isDeleting)
      ensures ms == 50 <==> isDeleting
      ensures ms == 100 <==> !isDeleting
    {
      Delay(isDeleting)
    }

    /** One firing of the tick timeout; `c` is the position the tick captured. */
    method Tick()
      requires Valid()
      modifies this
      ensures Valid()
      ensures State() == Step(old(State()))
    {
      StepPreservesReachable(State());
      var currentPhrase := Phrase(phraseIndex);
      var c := charIndex;
      if !isDeleting {
        typedText := Slice(currentPhrase, 0, c + 1);
        charIndex := c + 1;
        if c + 1 == |currentPhrase| {
          deleteScheduled := true;
        }
      } else {
        typedText := Slice(currentPhrase, 0, c - 1);
        charIndex := c - 1;
        if c == 0 {
          isDeleting := false;
          phraseIndex := (phraseIndex + 1) % |Phrases|;
        }
      }
      assert State() == Step(old(State()));
      assert Reachable(State());
    }

    /** The one-second timeout scheduled when the phrase was fully typed. */
    method DeleteTimerFires()
      requires Valid()
      modifies this
      ensures Valid()
      ensures State() == TimerFires(old(State()))
    {
      TimerPreservesReachable(State());
      if deleteScheduled {
        isDeleting := true;
        deleteScheduled := false;
      }
    }

    /** The normal and bold spans as rendered. */
    function Rendered(): (parts: (string, string))
      reads this
      requires Valid()
      ensures parts == RenderSplit(typedText, Phrases[phraseIndex].normal)
      ensures charIndex >= 0 ==>
        IsPrefix(parts.0, Phrases[phraseIndex].normal) && IsPrefix(parts.1, Phrases[phraseIndex].bold)
    {
      if charIndex >= 0 then
        RenderedIsPrefixOfPhrase(State());
        RenderSplit(typedText, Phrases[phraseIndex].normal)
      else
        RenderSplit(typedText, Phrases[phraseIndex].normal)
    }
  }
}
