/**
 * The home page's title animation (fe/src/App.jsx, `Home`): on mount a
 * 100 ms interval reveals the welcome text one character per tick and clears
 * itself on the first tick after the whole text is shown; unmounting clears
 * it early. Each interval firing is a call of `Tick`.
 */
module App {

  /** The title that is typed out. */
  const FullText: string := "Welcome to AI Chat App"

  class Home {
    /** What the heading shows. */
    var displayText: string
    /** The interval's closure variable `index`. */
    var index: nat
    /** Whether the interval is still scheduled. */
    var running: bool

    /** The heading always shows the first `index` characters of the title. */
    ghost predicate Valid()
      reads this
    {
      index <= |FullText| && displayText == FullText[..index]
    }

    /** Mounting: nothing shown yet, the interval started. */
    constructor ()
      ensures Valid() && displayText == "" && index == 0 && running
    {
      displayText, index, running := "", 0, true;
    }

    /**
     * One firing of the interval: while characters remain, one more is shown
     * and what was shown before stays a prefix of it; once the whole title is
     * shown the tick shows nothing new and clears the interval.
     */
    method Tick()
      requires Valid() && running
      modifies this
      ensures Valid()
      ensures old(displayText) <= displayText
      ensures old(index) < |FullText| ==> index == old(index) + 1 && |displayText| == |old(displayText)| + 1 && running
      ensures old(index) == |FullText| ==> displayText == FullText && index == old(index) && !running
    {
      if index < |FullText| {
        displayText, index := FullText[..index + 1], index + 1;
      } else {
        running := false;
      }
    }

    /** Unmounting runs the effect's cleanup: the interval is cleared and the
        heading keeps what it showed. */
    method Unmount()
      requires Valid()
      modifies this
      ensures Valid() && !running
      ensures displayText == old(displayText) && index == old(index)
    {
      running := false;
    }

    /**
     * The interval left to run with the page mounted: it fires once per
     * character still hidden and once more to clear itself, and the heading
     * ends showing the whole title.
     */
    method Animate() returns (ticks: nat)
      requires Valid() && running
      modifies this
      ensures Valid() && !running && displayText == FullText
      ensures ticks == |FullText| - old(index) + 1
    {
      ticks := 0;
      while running
        invariant Valid()
        invariant running ==> ticks == index - old(index)
        invariant !running ==> ticks == |FullText| - old(index) + 1 && index == |FullText|
        invariant old(index) <= index
        decreases |FullText| - index + (if running then 1 else 0)
      {
        Tick();
        ticks := ticks + 1;
      }
    }
  }

  /** From mounting, the interval stops after 23 ticks, 2.3 seconds at the
      source's 100 ms period: the title is complete from tick 22 and the 23rd
      only clears the interval. */
  method WelcomeAnimation() returns (shown: string, ticks: nat)
    ensures shown == "Welcome to AI Chat App" && ticks == 23
  {
    var home := new Home();
    ticks := home.Animate();
    shown := home.displayText;
  }
}
