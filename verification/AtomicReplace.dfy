/** Replacing a file by another one with retries (patchi/core/atomic.py). */
module AtomicReplace {
  import opened Common

  /** How the operating system answers one file operation: `Denied` is a
      PermissionError, `Broken` any other exception. */
  datatype Answer = Granted | Denied | Broken

  /** The answers of one attempt. On POSIX only `replace` is asked. */
  datatype Attempt = Attempt(unlink: Answer, replace: Answer)

  /** The contents of the two paths at one moment. */
  datatype Moment = Moment(src: Option<string>, dst: Option<string>)

  /** The longest total sleep: 0.05 * (1 + 2 + ... + (retries - 1)). */
  ghost function SleepBound(retries: nat): real {
    0.05 * (retries * (retries - 1)) as real / 2.0
  }

  /** The sleep after n denied attempts, each 0.05 s longer than the last. */
  ghost function Sleep(n: nat): real { if n == 0 then 0.0 else Sleep(n - 1) + 0.05 * n as real }

  lemma {:induction false} SleepBounded(n: nat, retries: nat)
    requires n < retries
    ensures 0.0 <= Sleep(n) == SleepBound(n + 1) <= SleepBound(retries)
    decreases retries, n
  {
    if n > 0 {
      SleepBounded(n - 1, n);
      assert ((n + 1) * n) as real == (n * (n - 1)) as real + 2.0 * n as real;
    }
    if n + 1 < retries {
      SleepBounded(n, retries - 1);
      assert (retries * (retries - 1)) as real == ((retries - 1) * (retries - 2)) as real + 2.0 * (retries - 1) as real;
    }
  }

  /** The target is out of the way of the replace of attempt a: on POSIX always;
      on Windows if it was missing, or an unlink up to then was granted. */
  ghost predicate OutOfTheWay(windows: bool, target: Option<string>, env: nat -> Attempt, a: nat) {
    !windows || target.None? || exists b: nat :: b <= a && env(b).unlink == Granted
  }

  /** Attempt a ends in a PermissionError, of its unlink or of its replace. */
  ghost predicate DeniedAt(windows: bool, target: Option<string>, env: nat -> Attempt, a: nat) {
    if OutOfTheWay(windows, target, env, a) then env(a).replace == Denied else env(a).unlink == Denied
  }

  /** All attempts before attempt a end in a PermissionError. */
  ghost predicate Reached(windows: bool, target: Option<string>, env: nat -> Attempt, a: nat) {
    forall b: nat :: b < a ==> DeniedAt(windows, target, env, b)
  }

  ghost predicate SucceedsAt(windows: bool, target: Option<string>, env: nat -> Attempt, a: nat) {
    && Reached(windows, target, env, a)
    && OutOfTheWay(windows, target, env, a)
    && env(a).replace == Granted
  }

  /** Attempt a removes the target. */
  ghost predicate UnlinksAt(windows: bool, target: Option<string>, env: nat -> Attempt, a: nat) {
    windows && target.Some? && Reached(windows, target, env, a) && env(a).unlink == Granted
  }

  /** One of the first n attempts succeeds. */
  ghost predicate Succeeds(windows: bool, target: Option<string>, env: nat -> Attempt, n: nat) {
    exists a: nat :: a < n && SucceedsAt(windows, target, env, a)
  }

  /** One of the first n attempts removes the target. */
  ghost predicate Unlinks(windows: bool, target: Option<string>, env: nat -> Attempt, n: nat) {
    exists a: nat :: a < n && UnlinksAt(windows, target, env, a)
  }

  /** The new content is whole at the source or at the destination, and the
      destination is old or new - or, on Windows only, missing. */
  ghost predicate NothingTorn(visited: seq<Moment>, content: Option<string>, target: Option<string>, windows: bool) {
    forall k :: 0 <= k < |visited| ==>
      || visited[k] == Moment(content, target)
      || (windows && visited[k] == Moment(content, None))
      || visited[k] == Moment(None, content)
  }

  /** The target is missing at some moment. */
  ghost predicate Missing(visited: seq<Moment>) { exists k :: 0 <= k < |visited| && visited[k].dst == None }

  lemma MissingSnoc(visited: seq<Moment>, m: Moment)
    ensures Missing(visited + [m]) <==> Missing(visited) || m.dst == None
  {
    var all := visited + [m];
    if Missing(visited) {
      var k :| 0 <= k < |visited| && visited[k].dst == None;
      assert all[k].dst == None;
    }
    assert all[|visited|] == m;
  }

  /** What a reached attempt n finds and does. */
  lemma AtAttempt(windows: bool, target: Option<string>, env: nat -> Attempt, n: nat)
    requires Reached(windows, target, env, n)
    ensures !Succeeds(windows, target, env, n)
    ensures OutOfTheWay(windows, target, env, n) <==>
              !windows || target.None? || Unlinks(windows, target, env, n) || env(n).unlink == Granted
    ensures Unlinks(windows, target, env, n + 1) <==>
              Unlinks(windows, target, env, n) || (windows && target.Some? && env(n).unlink == Granted)
    ensures Succeeds(windows, target, env, n + 1) <==>
              OutOfTheWay(windows, target, env, n) && env(n).replace == Granted
    ensures Reached(windows, target, env, n + 1) <==> DeniedAt(windows, target, env, n)
  {
    forall a: nat | a < n ensures !SucceedsAt(windows, target, env, a) {
      assert DeniedAt(windows, target, env, a);
    }
    forall b: nat | b < n && windows && target.Some? && env(b).unlink == Granted
      ensures UnlinksAt(windows, target, env, b)
    {
      assert Reached(windows, target, env, b);
    }
    assert UnlinksAt(windows, target, env, n) <==> windows && target.Some? && env(n).unlink == Granted;
    assert SucceedsAt(windows, target, env, n) <==> OutOfTheWay(windows, target, env, n) && env(n).replace == Granted;
  }

  /** An attempt that is not denied, or has no successor, is the last one. */
  lemma AtTheEnd(windows: bool, target: Option<string>, env: nat -> Attempt, n: nat, retries: nat)
    requires n < retries && (n + 1 == retries || !DeniedAt(windows, target, env, n))
    ensures Succeeds(windows, target, env, retries) <==> Succeeds(windows, target, env, n + 1)
    ensures Unlinks(windows, target, env, retries) <==> Unlinks(windows, target, env, n + 1)
  {
    forall a: nat | n < a < retries
      ensures !SucceedsAt(windows, target, env, a) && !UnlinksAt(windows, target, env, a)
    {
      assert !Reached(windows, target, env, a);
    }
  }

  /** Attempt n is the last one made: it is not denied, or has no successor. */
  ghost predicate LastAttempt(windows: bool, target: Option<string>, env: nat -> Attempt, retries: nat, n: nat) {
    && n < retries
    && Reached(windows, target, env, n)
    && (n + 1 == retries || !DeniedAt(windows, target, env, n))
  }

  class Replacement {
    var src: Option<string>
    var dst: Option<string>
    var slept: real
    ghost var visited: seq<Moment>   // every state either path went through

    constructor (content: string, target: Option<string>)
      ensures src == Some(content) && dst == target && slept == 0.0
      ensures visited == [Moment(src, dst)]
    {
      src, dst, slept := Some(content), target, 0.0;
      visited := [Moment(Some(content), target)];
    }

    /** Returns normally (`ok`) or raises; which of the two is exact. At every
        moment, whatever fails, the new content is whole at the source or at the
        destination. The destination is never anything but its old or new
        content, or missing; where it existed it is missing at some moment
        exactly if a reached attempt's unlink was granted - never on POSIX.
        It sleeps 0.05 s longer before each further attempt.
        With `retries == 0` the loop body never runs: the call returns normally
        and has replaced nothing. */
    method AtomicReplace(retries: nat, windows: bool, env: nat -> Attempt) returns (ok: bool)
      requires src.Some? && slept == 0.0 && visited == [Moment(src, dst)]
      modifies this
      ensures NothingTorn(visited, old(src), old(dst), windows)
      ensures |visited| > 0 && visited[|visited| - 1] == Moment(src, dst)
      ensures old(dst).Some? ==> (Missing(visited) <==> Unlinks(windows, old(dst), env, retries))
      ensures retries >= 1 ==> (ok <==> Succeeds(windows, old(dst), env, retries))
      ensures retries >= 1 && ok ==> src == None && dst == old(src)
      ensures !ok ==> src == old(src) && dst == if Unlinks(windows, old(dst), env, retries) then None else old(dst)
      ensures retries == 0 ==> ok && src == old(src) && dst == old(dst)
      ensures retries >= 1 ==>
                exists n: nat ::
                  && LastAttempt(windows, old(dst), env, retries, n)
                  && slept == 0.05 * (n * (n + 1)) as real / 2.0
      ensures retries >= 1 ==> 0.0 <= slept <= 0.05 * (retries * (retries - 1)) as real / 2.0
    {
      var attempt := 0;
      ghost var target := dst;
      while attempt < retries
        invariant 0 <= attempt <= retries
        invariant attempt == retries ==> retries == 0
        invariant src == old(src) && target == old(dst)
        invariant dst == if Unlinks(windows, target, env, attempt) then None else target
        invariant |visited| > 0 && visited[|visited| - 1] == Moment(src, dst)
        invariant NothingTorn(visited, src, target, windows)
        invariant Missing(visited) <==> dst.None?
        invariant Reached(windows, target, env, attempt)
        invariant slept == Sleep(attempt)
      {
        SleepBounded(attempt, retries);
        AtAttempt(windows, target, env, attempt);
        if attempt + 1 == retries || !DeniedAt(windows, target, env, attempt) {
          AtTheEnd(windows, target, env, attempt, retries);
          assert LastAttempt(windows, target, env, retries, attempt);
        }
        var denied := false;
        if windows && dst.Some? {
          match env(attempt).unlink
          case Granted =>
            MissingSnoc(visited, Moment(src, None));
            dst := None;
            visited := visited + [Moment(src, dst)];
          case Denied => denied := true;
          case Broken => return false;
        }
        if !denied {
          match env(attempt).replace
          case Granted =>
            MissingSnoc(visited, Moment(None, src));
            src, dst := None, src;
            visited := visited + [Moment(src, dst)];
            return true;
          case Denied => denied := true;
          case Broken => return false;
        }
        if attempt < retries - 1 {
          slept := slept + 0.05 * (attempt + 1) as real;
        } else {
          return false;
        }
        attempt := attempt + 1;
      }
      return true;
    }
  }
}
