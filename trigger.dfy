/** The save trigger: turns a payload into a browser download by clicking a
    temporary anchor, trying three activation methods in turn, and degrades
    to opening the payload in a new window. It never fails its caller. */
module Trigger {
  import opened Gifs
  import Text

  /** The three ways the anchor is activated, in the order they are tried. */
  datatype Via = Click | Dispatch | WindowOpen

  function Rank(v: Via): nat
  {
    match v
    case Click => 0
    case Dispatch => 1
    case WindowOpen => 2
  }

  /** What the second `window.open` call of the last-resort branch does. */
  datatype FallbackOpen = WindowReturned | WindowNull | OpenThrows

  /** The browser behaviour the trigger depends on: which calls throw,
      whether `link.click` is a function, what the last-resort open does.
      `objectUrlThrows` applies to both `URL.createObjectURL` calls. */
  datatype Browser = Browser(
    objectUrlThrows: bool,
    clickIsFunction: bool,
    clickThrows: bool,
    dispatchThrows: bool,
    openThrows: bool,
    fallbackOpen: FallbackOpen)

  /** Whether the cascade tries `v` once it gets there. */
  predicate Available(b: Browser, v: Via)
  {
    v != Click || b.clickIsFunction
  }

  predicate Throws(b: Browser, v: Via)
  {
    match v
    case Click => b.clickThrows
    case Dispatch => b.dispatchThrows
    case WindowOpen => b.openThrows
  }

  /** Some activation method is tried and does not throw. */
  predicate SomeMethodWorks(b: Browser)
  {
    exists v: Via :: Available(b, v) && !Throws(b, v)
  }

  /** The end state of one trigger call. `Triggered` schedules the removal
      of the anchor and the release of the object URL after `cleanupDelay`
      milliseconds; `OpenedInNewWindow` and `Failed` are the two endings of
      the catch-all branch (an informational alert and a failure alert). */
  datatype TriggerOutcome =
    | Triggered(via: Via, linkName: string, cleanupDelay: real)
    | OpenedInNewWindow
    | Failed

  function Max(a: real, b: real): real { if a >= b then a else b }
  function Min(a: real, b: real): real { if a <= b then a else b }

  /** `Math.max(2000, Math.min(blob.size / 1000, 10000))` in milliseconds. */
  function CleanupDelay(size: nat): (d: real)
    ensures 2000.0 <= d <= 10000.0
    ensures 2000.0 < d < 10000.0 ==> d == size as real / 1000.0
  {
    Max(2000.0, Min(size as real / 1000.0, 10000.0))
  }

  /** A larger payload never gets a shorter cleanup delay. */
  lemma CleanupDelayMonotonic(small: nat, large: nat)
    requires small <= large
    ensures CleanupDelay(small) <= CleanupDelay(large)
  {
  }

  lemma CleanupDelayEnds(size: nat)
    ensures size <= 2000000 ==> CleanupDelay(size) == 2000.0
    ensures size >= 10000000 ==> CleanupDelay(size) == 10000.0
  {
  }

  /** The catch-all branch: open the payload in a new window when an object
      URL can be made and `window.open` returns a window. */
  function LastResort(b: Browser): (r: TriggerOutcome)
    ensures r.OpenedInNewWindow? <==> !b.objectUrlThrows && b.fallbackOpen == WindowReturned
    ensures !r.Triggered?
  {
    if !b.objectUrlThrows && b.fallbackOpen == WindowReturned then OpenedInNewWindow else Failed
  }

  /** Saves `blob` under the sanitised `filename`. Returns the activation
      methods it tried, in order, and how the call ended. */
  method TriggerDownload(blob: Blob, filename: string, b: Browser)
    returns (attempts: seq<Via>, outcome: TriggerOutcome)
    // the anchor is activated exactly when the payload is non-empty, an
    // object URL can be made and some activation method does not throw
    ensures outcome.Triggered? <==> blob.size > 0 && !b.objectUrlThrows && SomeMethodWorks(b)
    // the first method in cascade order that does not throw wins
    ensures outcome.Triggered? ==>
              && Available(b, outcome.via) && !Throws(b, outcome.via)
              && (forall v: Via :: Available(b, v) && Rank(v) < Rank(outcome.via) ==> Throws(b, v))
              && outcome.linkName == Text.SanitizeFileName(filename)
              && outcome.cleanupDelay == CleanupDelay(blob.size)
              && |attempts| > 0 && attempts[|attempts| - 1] == outcome.via
    // every other ending is the catch-all branch
    ensures !outcome.Triggered? ==> outcome == LastResort(b)
    // methods are tried in cascade order, each at most once, and a method
    // is followed by another only when it threw
    ensures forall i, j :: 0 <= i < j < |attempts| ==> Rank(attempts[i]) < Rank(attempts[j])
    ensures forall i :: 0 <= i < |attempts| ==> Available(b, attempts[i])
    ensures forall i :: 0 <= i < |attempts| - 1 ==> Throws(b, attempts[i])
    ensures blob.size == 0 || b.objectUrlThrows ==> attempts == []
    // no available method before the deciding one is skipped
    ensures blob.size > 0 && !b.objectUrlThrows ==>
              forall v: Via :: Available(b, v) && (outcome.Triggered? ==> Rank(v) <= Rank(outcome.via))
                               ==> v in attempts
  {
    attempts := [];
    if blob.size == 0 || b.objectUrlThrows {
      outcome := LastResort(b);
      return;
    }
    var linkName := Text.SanitizeFileName(filename);
    var triggered := false;
    var via := Click;
    if b.clickIsFunction {
      attempts := attempts + [Click];
      if !b.clickThrows {
        triggered, via := true, Click;
      }
    }
    if !triggered {
      attempts := attempts + [Dispatch];
      if !b.dispatchThrows {
        triggered, via := true, Dispatch;
      }
    }
    if !triggered {
      attempts := attempts + [WindowOpen];
      if b.openThrows {
        forall v: Via | Available(b, v) ensures Throws(b, v) {
          match v
          case Click =>
          case Dispatch =>
          case WindowOpen =>
        }
        outcome := LastResort(b);
        return;
      }
      triggered, via := true, WindowOpen;
    }
    assert Available(b, via) && !Throws(b, via);
    outcome := Triggered(via, linkName, CleanupDelay(blob.size));
  }
}
