/** The guarantee the per-action limiter of js/security.js gives over many
    calls: replaying a trace of calls on one action (clock readings that
    never go backwards, fixed window and maximum), no window shorter than
    `windowMs` ever holds more than `maxAttempts` admitted calls. */
module RateWindow {
  import opened Security

  predicate Sorted(s: seq<int>) {
    forall i, j :: 0 <= i <= j < |s| ==> s[i] <= s[j]
  }

  /** Any `maxAttempts + 1` consecutive admissions are at least `windowMs` apart. */
  predicate WindowRespected(admitted: seq<int>, windowMs: int, maxAttempts: nat) {
    forall i :: maxAttempts <= i < |admitted| ==> admitted[i] - admitted[i - maxAttempts] >= windowMs
  }

  /** The clock readings of the calls in `calls` that `checkRateLimit`
      admits, starting from the stored list `stored`. */
  function Admitted(stored: seq<int>, calls: seq<int>, windowMs: int, maxAttempts: int): (r: seq<int>)
    ensures |r| <= |calls|
    ensures forall t :: t in r ==> t in calls
    decreases |calls|
  {
    if calls == [] then []
    else
      var now := calls[0];
      var next := RecordAttempt(stored, now, windowMs, maxAttempts);
      if Admits(stored, now, windowMs, maxAttempts) then [now] + Admitted(next, calls[1..], windowMs, maxAttempts)
      else Admitted(next, calls[1..], windowMs, maxAttempts)
  }

  /** Filtering a sorted list by "still inside the window" keeps a suffix of
      it; everything before that suffix is at least `windowMs` old. */
  lemma {:induction false} RecentIsSuffix(s: seq<int>, now: int, windowMs: int)
    requires Sorted(s)
    ensures var r := Recent(s, now, windowMs);
      && r == s[|s| - |r|..]
      && forall j :: 0 <= j < |s| - |r| ==> s[j] + windowMs <= now
    decreases |s|
  {
    if s != [] {
      if now - s[0] < windowMs {
        assert forall i :: 0 <= i < |s| ==> now - s[i] < windowMs by {
          forall i | 0 <= i < |s| ensures now - s[i] < windowMs {
            assert s[0] <= s[i];
          }
        }
      } else {
        assert Sorted(s[1..]);
        RecentIsSuffix(s[1..], now, windowMs);
        var r := Recent(s, now, windowMs);
        assert r == Recent(s[1..], now, windowMs);
        assert s[1..][|s| - 1 - |r|..] == s[|s| - |r|..];
        forall j | 0 <= j < |s| - |r| ensures s[j] + windowMs <= now {
          if j > 0 {
            assert s[1..][j - 1] == s[j];
          }
        }
      }
    }
  }

  /** The invariant of a replay: `stored` is the newest part of the admitted
      calls `past`, and every older admitted call is at least `windowMs`
      before `cutoff`. */
  predicate Tracks(stored: seq<int>, past: seq<int>, cutoff: int, windowMs: int) {
    && |stored| <= |past|
    && stored == past[|past| - |stored|..]
    && forall j :: 0 <= j < |past| - |stored| ==> past[j] + windowMs <= cutoff
  }

  lemma SortedParts(past: seq<int>, calls: seq<int>)
    requires Sorted(past + calls) && calls != []
    ensures Sorted(past) && Sorted(past + calls[1..])
    ensures past + calls == (past + [calls[0]]) + calls[1..]
    ensures forall k :: 0 <= k < |calls| ==> calls[0] <= calls[k]
  {
    var all := past + calls;
    assert Sorted(past) by {
      forall i, j | 0 <= i <= j < |past| ensures past[i] <= past[j] {
        assert all[i] == past[i] && all[j] == past[j];
      }
    }
    forall k | 0 <= k < |calls| ensures calls[0] <= calls[k] {
      assert all[|past|] == calls[0] && all[|past| + k] == calls[k];
    }
    var rest := calls[1..];
    assert Sorted(past + rest) by {
      forall i, j | 0 <= i <= j < |past + rest| ensures (past + rest)[i] <= (past + rest)[j] {
        var i' := if i < |past| then i else i + 1;
        var j' := if j < |past| then j else j + 1;
        assert (past + rest)[i] == all[i'];
        assert (past + rest)[j] == all[j'];
      }
    }
  }

  /** Every admitted call before the newest `keep` is at least `windowMs` before `now`. */
  predicate Expired(past: seq<int>, keep: nat, now: int, windowMs: int) {
    forall j :: 0 <= j < |past| - keep ==> past[j] + windowMs <= now
  }

  /** Under the replay invariant, the calls still inside the window at
      `now` are the newest calls of `past`, and all older ones have expired. */
  lemma RecentOfTracked(stored: seq<int>, past: seq<int>, cutoff: int, now: int, windowMs: int)
    requires Sorted(past) && Tracks(stored, past, cutoff, windowMs) && cutoff <= now
    ensures var r := Recent(stored, now, windowMs);
      && |r| <= |past|
      && r == past[|past| - |r|..]
      && Expired(past, |r|, now, windowMs)
  {
    assert Sorted(stored);
    RecentIsSuffix(stored, now, windowMs);
    var r := Recent(stored, now, windowMs);
    var off := |past| - |stored|;
    assert r == past[|past| - |r|..];
    forall j | 0 <= j < |past| - |r| ensures past[j] + windowMs <= now {
      if j >= off {
        assert past[j] == stored[j - off];
      }
    }
  }

  /** An admitted call at `now` keeps the invariant, with `now` as the new cutoff. */
  lemma AdmitTracks(recent: seq<int>, past: seq<int>, now: int, windowMs: int)
    requires |recent| <= |past| && recent == past[|past| - |recent|..]
    requires Expired(past, |recent|, now, windowMs)
    ensures Tracks(recent + [now], past + [now], now, windowMs)
  {
    var past' := past + [now];
    assert recent + [now] == past'[|past'| - |recent| - 1..];
    forall j | 0 <= j < |past'| - |recent| - 1 ensures past'[j] + windowMs <= now {
      assert past'[j] == past[j];
    }
  }

  /** Fewer than `maxAttempts` calls inside the window means the new call is
      at least `windowMs` after the call `maxAttempts` admissions back. */
  lemma AdmitWindow(past: seq<int>, keep: nat, now: int, windowMs: int, maxAttempts: nat)
    requires WindowRespected(past, windowMs, maxAttempts)
    requires Expired(past, keep, now, windowMs) && keep < maxAttempts
    ensures WindowRespected(past + [now], windowMs, maxAttempts)
  {
    var past' := past + [now];
    forall i | maxAttempts <= i < |past'| ensures past'[i] - past'[i - maxAttempts] >= windowMs {
      if i < |past| {
        assert past'[i] == past[i] && past'[i - maxAttempts] == past[i - maxAttempts];
      } else {
        assert past'[i - maxAttempts] == past[|past| - maxAttempts];
      }
    }
  }

  /** An admitted call at `now` keeps the invariant, with `now` as the new
      cutoff, and the admission respects the window. */
  lemma AdmitStep(stored: seq<int>, past: seq<int>, cutoff: int, now: int, windowMs: int, maxAttempts: nat)
    requires Sorted(past) && Tracks(stored, past, cutoff, windowMs) && cutoff <= now
    requires WindowRespected(past, windowMs, maxAttempts)
    requires Admits(stored, now, windowMs, maxAttempts)
    ensures Tracks(RecordAttempt(stored, now, windowMs, maxAttempts), past + [now], now, windowMs)
    ensures WindowRespected(past + [now], windowMs, maxAttempts)
  {
    RecentOfTracked(stored, past, cutoff, now, windowMs);
    var recent := Recent(stored, now, windowMs);
    assert RecordAttempt(stored, now, windowMs, maxAttempts) == recent + [now];
    AdmitTracks(recent, past, now, windowMs);
    AdmitWindow(past, |recent|, now, windowMs, maxAttempts);
  }

  /** Stated on its own so that the replay proof does not reason about
      sequence equality in its large context. */
  lemma AppendAssoc(a: seq<int>, x: int, b: seq<int>)
    ensures a + ([x] + b) == (a + [x]) + b
  {
  }

  /** Replaying the remaining calls keeps the admitted calls in clock order
      and keeps the window respected. */
  lemma {:induction false} AdmittedRespectsWindow(stored: seq<int>, past: seq<int>, cutoff: int,
                                                  calls: seq<int>, windowMs: int, maxAttempts: nat)
    requires Sorted(past + calls)
    requires Tracks(stored, past, cutoff, windowMs)
    requires forall k :: 0 <= k < |calls| ==> cutoff <= calls[k]
    requires WindowRespected(past, windowMs, maxAttempts)
    ensures Sorted(past + Admitted(stored, calls, windowMs, maxAttempts))
    ensures WindowRespected(past + Admitted(stored, calls, windowMs, maxAttempts), windowMs, maxAttempts)
    decreases |calls|
  {
    if calls == [] {
      assert past + calls == past;
      assert past + [] == past;
    } else {
      var now := calls[0];
      var rest := calls[1..];
      SortedParts(past, calls);
      var next := RecordAttempt(stored, now, windowMs, maxAttempts);
      if Admits(stored, now, windowMs, maxAttempts) {
        AdmitStep(stored, past, cutoff, now, windowMs, maxAttempts);
        AdmittedRespectsWindow(next, past + [now], now, rest, windowMs, maxAttempts);
        var later := Admitted(next, rest, windowMs, maxAttempts);
        assert Admitted(stored, calls, windowMs, maxAttempts) == [now] + later;
        AppendAssoc(past, now, later);
      } else {
        AdmittedRespectsWindow(stored, past, cutoff, rest, windowMs, maxAttempts);
      }
    }
  }

  /** Starting from an unseen action, the admitted calls come in clock order
      and no `maxAttempts + 1` of them fit in a span shorter than `windowMs`:
      the call that would make one more is rejected. */
  lemma WindowBound(calls: seq<int>, windowMs: int, maxAttempts: nat)
    requires Sorted(calls)
    ensures Spread(Admitted([], calls, windowMs, maxAttempts), windowMs, maxAttempts)
  {
    ReplayFromUnseen(calls, windowMs, maxAttempts);
    SpreadOfWindow(Admitted([], calls, windowMs, maxAttempts), windowMs, maxAttempts);
  }

  /** The replay invariant holds at the start, with nothing admitted yet. */
  lemma ReplayFromUnseen(calls: seq<int>, windowMs: int, maxAttempts: nat)
    requires Sorted(calls)
    ensures var a := Admitted([], calls, windowMs, maxAttempts);
      Sorted(a) && WindowRespected(a, windowMs, maxAttempts)
  {
    if calls != [] {
      var a := Admitted([], calls, windowMs, maxAttempts);
      assert [] + calls == calls;
      assert [] + a == a;
      assert Tracks([], [], calls[0], windowMs);
      assert WindowRespected([], windowMs, maxAttempts);
      assert forall k :: 0 <= k < |calls| ==> calls[0] <= calls[k];
      AdmittedRespectsWindow([], [], calls[0], calls, windowMs, maxAttempts);
    }
  }

  predicate Spread(a: seq<int>, windowMs: int, maxAttempts: nat) {
    forall i, j :: 0 <= i && i + maxAttempts <= j < |a| ==> a[j] - a[i] >= windowMs
  }

  /** In clock order, "every run of `maxAttempts + 1` consecutive admissions
      spans `windowMs`" extends to any `maxAttempts + 1` admissions. */
  lemma SpreadOfWindow(a: seq<int>, windowMs: int, maxAttempts: nat)
    requires Sorted(a) && WindowRespected(a, windowMs, maxAttempts)
    ensures Spread(a, windowMs, maxAttempts)
  {
    forall i, j | 0 <= i && i + maxAttempts <= j < |a| ensures a[j] - a[i] >= windowMs {
      assert a[i] <= a[j - maxAttempts];
    }
  }
}
