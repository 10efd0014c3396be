/** The transport controls: which media item is shown, whether the player
    is playing, and how a mouse click on the prev, play and next buttons
    changes the two. */
module Transport {
  import opened CArith
  import opened Geometry
  import opened LayoutEngine

  /** What the transport controls decide: the shown item and the play flag. */
  datatype Playback = Playback(index: int, playing: bool)

  /** The NEXT button's step: one forward, back to 0 after the last item.
      Agrees with the modular reading `(i + 1) mod n`. */
  function NextIndex(i: int, n: int): (j: int)
    requires 0 <= i < n
    ensures 0 <= j < n
    ensures j == (i + 1) % n
    ensures j == 0 <==> i == n - 1
  {
    if i + 1 >= n then 0 else i + 1
  }

  /** The PREVIOUS button's step: one back, to the last item from 0.
      Agrees with the modular reading `(i - 1 + n) mod n`. */
  function PrevIndex(i: int, n: int): (j: int)
    requires 0 <= i < n
    ensures 0 <= j < n
    ensures j == (i - 1 + n) % n
    ensures j == n - 1 <==> i == 0
  {
    if i - 1 < 0 then n - 1 else i - 1
  }

  /** `k` NEXT clicks in a row. */
  function NextN(i: int, n: int, k: nat): (j: int)
    requires 0 <= i < n
    ensures 0 <= j < n
    decreases k
  {
    if k == 0 then i else NextIndex(NextN(i, n, k - 1), n)
  }

  /** `k` PREVIOUS clicks in a row. */
  function PrevN(i: int, n: int, k: nat): (j: int)
    requires 0 <= i < n
    ensures 0 <= j < n
    decreases k
  {
    if k == 0 then i else PrevIndex(PrevN(i, n, k - 1), n)
  }

  /** `k` NEXT clicks move the index `k` places forward, modulo `n`. */
  lemma {:induction false} NextNIsShift(i: int, n: int, k: nat)
    requires 0 <= i < n
    ensures NextN(i, n, k) == (i + k) % n
  {
    if k > 0 {
      NextNIsShift(i, n, k - 1);
      ModOfSum(i + k - 1, 1, n);
    }
  }

  /** `k` PREVIOUS clicks move the index `k` places back, modulo `n`. */
  lemma {:induction false} PrevNIsShift(i: int, n: int, k: nat)
    requires 0 <= i < n
    ensures PrevN(i, n, k) == (i - k) % n
  {
    if k > 0 {
      PrevNIsShift(i, n, k - 1);
      ModOfSum(i - k + 1, n - 1, n);
      ModShift(i - k, 1, n);
    }
  }

  /** `n` clicks on NEXT, or `n` clicks on PREVIOUS, come back to the start. */
  lemma FullCycle(i: int, n: int)
    requires 0 <= i < n
    ensures NextN(i, n, n) == i
    ensures PrevN(i, n, n) == i
  {
    ModUnique(i, n, 0, i);
    NextNIsShift(i, n, n);
    ModShift(i, 1, n);
    assert NextN(i, n, n) == i;
    PrevNIsShift(i, n, n);
    ModShift(i, -1, n);
  }

  /** NEXT and PREVIOUS undo each other. */
  lemma NextPrevInverse(i: int, n: int)
    requires 0 <= i < n
    ensures PrevIndex(NextIndex(i, n), n) == i
    ensures NextIndex(PrevIndex(i, n), n) == i
  {
  }

  /** The five-item media list of the running program. */
  lemma FiveItemWrap()
    ensures PrevIndex(0, 5) == 4 && NextIndex(4, 5) == 0
    ensures NextN(0, 5, 3) == 3
  {
  }

  /** The effect of one mouse press at (x, y): the NEXT, PLAY and PREVIOUS
      buttons are tested one after the other, each independently of the
      others, and each that contains the point takes its action. */
  function Click(l: Layout, x: int, y: int, n: int, s: Playback): (r: Playback)
    requires 0 <= s.index < n
    ensures 0 <= r.index < n
  {
    var afterNext := if IsInside(l.nextBtn, x, y) then NextIndex(s.index, n) else s.index;
    var playing := if IsInside(l.playBtn, x, y) then !s.playing else s.playing;
    var afterPrev := if IsInside(l.prevBtn, x, y) then PrevIndex(afterNext, n) else afterNext;
    Playback(afterPrev, playing)
  }

  /** On the layout of any window, a click takes at most one action: it
      advances, toggles, retreats, or, outside the three buttons, does
      nothing. So it never changes both the index and the play flag. */
  lemma ClickOnComputedLayout(width: int, height: int, x: int, y: int, n: int, s: Playback)
    requires 0 <= s.index < n
    ensures var l := ComputeLayout(width, height);
      var r := Click(l, x, y, n, s);
      (IsInside(l.nextBtn, x, y) ==> r == Playback(NextIndex(s.index, n), s.playing)) &&
      (IsInside(l.playBtn, x, y) ==> r == Playback(s.index, !s.playing)) &&
      (IsInside(l.prevBtn, x, y) ==> r == Playback(PrevIndex(s.index, n), s.playing)) &&
      (!OnAnyButton(l, x, y) ==> r == s) &&
      (r.index == s.index || r.playing == s.playing)
  {
    ButtonsDisjoint(width, height, x, y);
  }

  /** Two presses on the play button give back the original state. */
  lemma PlayClickTwice(width: int, height: int, x: int, y: int, n: int, s: Playback)
    requires 0 <= s.index < n
    requires IsInside(ComputeLayout(width, height).playBtn, x, y)
    ensures var l := ComputeLayout(width, height);
      Click(l, x, y, n, Click(l, x, y, n, s)) == s
  {
    var l := ComputeLayout(width, height);
    ClickOnComputedLayout(width, height, x, y, n, s);
    ClickOnComputedLayout(width, height, x, y, n, Click(l, x, y, n, s));
  }

  /** The index into the media list and the play/pause flag. */
  class PlayerState {
    var index: int
    const count: int
    var isPlaying: bool

    /** The index is always a valid position in a non-empty media list. */
    ghost predicate Valid()
      reads this
    {
      0 < count && 0 <= index < count
    }

    function State(): Playback
      reads this
    {
      Playback(index, isPlaying)
    }

    /** Start-up: the first item, paused, over a list of `n` loaded items. */
    constructor (n: int)
      requires 0 < n
      ensures Valid()
      ensures count == n && index == 0 && !isPlaying
    {
      count := n;
      index := 0;
      isPlaying := false;
    }

    method Next()
      requires Valid()
      modifies this
      ensures Valid()
      ensures index == NextIndex(old(index), count)
      ensures isPlaying == old(isPlaying)
    {
      index := index + 1;
      if index >= count {
        index := 0;
      }
    }

    method Prev()
      requires Valid()
      modifies this
      ensures Valid()
      ensures index == PrevIndex(old(index), count)
      ensures isPlaying == old(isPlaying)
    {
      index := index - 1;
      if index < 0 {
        index := count - 1;
      }
    }

    method TogglePlay()
      requires Valid()
      modifies this
      ensures Valid()
      ensures isPlaying == !old(isPlaying)
      ensures index == old(index)
    {
      isPlaying := !isPlaying;
    }

    /** A mouse-button-down event at (x, y) against the current layout. */
    method HandleClick(l: Layout, x: int, y: int)
      requires Valid()
      modifies this
      ensures Valid()
      ensures State() == Click(l, x, y, count, old(State()))
    {
      if IsInside(l.nextBtn, x, y) {
        Next();
      }
      if IsInside(l.playBtn, x, y) {
        TogglePlay();
      }
      if IsInside(l.prevBtn, x, y) {
        Prev();
      }
    }
  }
}
