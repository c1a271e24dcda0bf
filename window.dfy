/**
 * Keeping the newest lines of a sequence: the drop-oldest step of the logcat queue
 * (electron/logCat.ts, capacity 2000) and the trim of the renderer's log window
 * (src/components/device-log.tsx, capacity 500).
 */
module Window {

  /**
   * The last `n` elements of `s`, or all of `s` when it is no longer than `n`:
   * `next.length > n ? next.slice(-n) : next`, and what `q.splice(0, q.length - n)`
   * leaves behind after a push.
   */
  function Newest<T>(s: seq<T>, n: nat): (r: seq<T>)
    ensures |r| == if |s| > n then n else |s|
  {
    if |s| > n then s[|s| - n..] else s
  }

  /** The window is a suffix: what it holds are the elements that came last, in order. */
  lemma NewestSuffix<T>(s: seq<T>, n: nat)
    ensures Newest(s, n) == s[|s| - |Newest(s, n)|..]
  {
  }

  /** Nothing is dropped while the sequence fits. */
  lemma NewestKeepsAll<T>(s: seq<T>, n: nat)
    requires |s| <= n
    ensures Newest(s, n) == s
  {
  }

  /**
   * Dropping the oldest elements after every append gives the same window as keeping
   * everything and dropping once at the end: the window always holds the newest `n`
   * elements ever appended.
   */
  lemma {:induction false} NewestAppend<T>(s: seq<T>, t: seq<T>, n: nat)
    ensures Newest(Newest(s, n) + t, n) == Newest(s + t, n)
  {
    var w := s + t;
    var u := Newest(s, n);
    var d := |s| - |u|;
    NewestSuffix(s, n);
    DropAppend(s, t, d);
    if |u + t| > n {
      DropDrop(w, d, |u + t| - n);
    } else if |s| > n {
      assert t == [] && w == s;
    } else {
      assert u == s;
    }
  }

  lemma DropAppend<T>(s: seq<T>, t: seq<T>, d: nat)
    requires d <= |s|
    ensures s[d..] + t == (s + t)[d..]
  {
  }

  lemma DropDrop<T>(w: seq<T>, d: nat, k: nat)
    requires d + k <= |w|
    ensures w[d..][k..] == w[d + k..]
  {
  }
}
