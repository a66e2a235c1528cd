/** The sliding-window limit on notification mails (wevibe-hub/internal/notifications/email.go). Times are
    nanoseconds on the hub's clock. */
module RateLimiter {
  import opened StableSort

  const HOUR: int := 3_600_000_000_000
  const PER_HOUR: nat := 10

  function After(cutoff: int): int -> bool {
    t => t > cutoff
  }

  /** The entries younger than an hour at `now`. */
  function Recent(history: seq<int>, now: int): seq<int> {
    Filter(After(now - HOUR), history)
  }

  predicate Allows(history: seq<int>, now: int) {
    |Recent(history, now)| < PER_HOUR
  }

  function Recorded(history: seq<int>, now: int): seq<int> {
    if Allows(history, now) then Recent(history, now) + [now] else Recent(history, now)
  }

  // ----- whole runs of one recipient -----

  /** The history stored after calls at these times. */
  function Stored(times: seq<int>): seq<int> {
    if times == [] then []
    else Recorded(Stored(times[..|times| - 1]), times[|times| - 1])
  }

  /** The times of the sends that were allowed. */
  function Sends(times: seq<int>): seq<int> {
    if times == [] then []
    else
      var now := times[|times| - 1];
      Sends(times[..|times| - 1]) + if Allows(Stored(times[..|times| - 1]), now) then [now] else []
  }

  ghost predicate NonDecreasing(s: seq<int>) {
    forall i, j :: 0 <= i < j < |s| ==> s[i] <= s[j]
  }

  lemma {:induction false} FilterTwice(a: int, b: int, s: seq<int>)
    requires a <= b
    ensures Filter(After(b), Filter(After(a), s)) == Filter(After(b), s)
  {
    if s != [] {
      FilterTwice(a, b, s[1..]);
      FilterCons(After(b), s[0], Filter(After(a), s[1..]));
    }
  }

  /** The stored history is the sends of the hour before the last call. */
  lemma {:induction false} StoredIsRecent(times: seq<int>)
    requires NonDecreasing(times) && times != []
    ensures Stored(times) == Recent(Sends(times), times[|times| - 1])
    ensures |Stored(times)| <= PER_HOUR
  {
    hide Filter;
    var init, now := times[..|times| - 1], times[|times| - 1];
    if init != [] {
      StoredIsRecent(init);
      FilterTwice(init[|init| - 1] - HOUR, now - HOUR, Sends(init));
    }
    assert Recent(Stored(init), now) == Recent(Sends(init), now);
    FilterSnoc(After(now - HOUR), Sends(init), now);
    assert Sends(init) + [] == Sends(init);
  }

  /** A call is refused exactly when ten sends were allowed in the hour before it. */
  lemma RefusedExactly(times: seq<int>, now: int)
    requires NonDecreasing(times + [now])
    ensures Sends(times + [now]) == Sends(times) <==> |Recent(Sends(times), now)| == PER_HOUR
    ensures |Recent(Sends(times), now)| <= PER_HOUR
  {
    var all := times + [now];
    assert all[..|times|] == times && all[|times|] == now;
    if times != [] {
      assert NonDecreasing(times) by {
        assert forall i :: 0 <= i < |times| ==> all[i] == times[i];
      }
      StoredIsRecent(times);
      assert times[|times| - 1] == all[|times| - 1] <= all[|times|];
      FilterTwice(times[|times| - 1] - HOUR, now - HOUR, Sends(times));
    }
  }

  lemma {:induction false} SendsOrdered(times: seq<int>)
    requires NonDecreasing(times)
    ensures NonDecreasing(Sends(times))
    ensures times != [] ==> forall i :: 0 <= i < |Sends(times)| ==> Sends(times)[i] <= times[|times| - 1]
  {
    if times != [] {
      var init := times[..|times| - 1];
      SendsOrdered(init);
      if init != [] {
        assert init[|init| - 1] <= times[|times| - 1];
      }
    }
  }

  /** At every send, fewer than ten of the sends before it were within its hour. */
  lemma {:induction false} EachSendHadRoom(times: seq<int>, k: nat)
    requires NonDecreasing(times) && k < |Sends(times)|
    ensures |Recent(Sends(times)[..k], Sends(times)[k])| < PER_HOUR
  {
    var init, now := times[..|times| - 1], times[|times| - 1];
    var before := Sends(init);
    if k < |before| {
      EachSendHadRoom(init, k);
      assert Sends(times)[..k] == before[..k];
    } else {
      assert Sends(times)[..k] == before;
      assert times == init + [now];
      RefusedExactly(init, now);
    }
  }

  /** How many of these times lie in `(t - HOUR, t]`. */
  function InWindow(s: seq<int>, t: int): nat {
    if s == [] then 0
    else InWindow(s[..|s| - 1], t) + if t - HOUR < s[|s| - 1] <= t then 1 else 0
  }

  lemma {:induction false} WindowWithin(s: seq<int>, t: int, last: int)
    requires last <= t && forall i :: 0 <= i < |s| ==> s[i] <= last
    ensures InWindow(s, t) <= |Recent(s, last)|
  {
    if s != [] {
      var init := s[..|s| - 1];
      WindowWithin(init, t, last);
      assert s == init + [s[|s| - 1]];
      FilterSnoc(After(last - HOUR), init, s[|s| - 1]);
    }
  }

  /** In any hour, however its ends fall, at most ten sends are allowed. */
  lemma {:induction false} AtMostTenPerHour(times: seq<int>, t: int, k: nat)
    requires NonDecreasing(times) && k <= |Sends(times)|
    ensures InWindow(Sends(times)[..k], t) <= PER_HOUR
    decreases k
  {
    hide Sends, NonDecreasing;
    if k > 0 {
      var s := Sends(times);
      var last := s[k - 1];
      assert s[..k][..k - 1] == s[..k - 1];
      if last > t {
        AtMostTenPerHour(times, t, k - 1);
      } else {
        SendsOrdered(times);
        EachSendHadRoom(times, k - 1);
        WindowWithin(s[..k - 1], t, last);
      }
    }
  }

  lemma HourlyLimit(times: seq<int>, t: int)
    requires NonDecreasing(times)
    ensures InWindow(Sends(times), t) <= PER_HOUR
  {
    AtMostTenPerHour(times, t, |Sends(times)|);
    assert Sends(times)[..|Sends(times)|] == Sends(times);
  }

  // ----- the limit in numbers -----

  /** Which of these times are less than 3,600 seconds before `now`. */
  function WithinHour(s: seq<int>, now: int): set<nat> {
    set k | 0 <= k < |s| && now - s[k] < 3_600_000_000_000
  }

  lemma {:induction false} RecentCount(s: seq<int>, now: int)
    ensures |Recent(s, now)| == |WithinHour(s, now)|
  {
    if s == [] {
      assert WithinHour(s, now) == {};
    } else {
      var init, last := s[..|s| - 1], s[|s| - 1];
      RecentCount(init, now);
      assert s == init + [last];
      FilterSnoc(After(now - HOUR), init, last);
      assert WithinHour(s, now) == if now - last < 3_600_000_000_000 then WithinHour(init, now) + {|init|} else WithinHour(init, now);
    }
  }

  /** A call is allowed exactly when fewer than ten of the sends before it are less than an hour old. */
  lemma AllowedExactly(times: seq<int>, now: int)
    requires NonDecreasing(times + [now])
    ensures Sends(times + [now]) == (if |WithinHour(Sends(times), now)| < 10 then Sends(times) + [now] else Sends(times))
  {
    RefusedExactly(times, now);
    RecentCount(Sends(times), now);
    assert (times + [now])[..|times|] == times && (times + [now])[|times|] == now;
    assert Sends(times) + [now] != Sends(times);
  }

  // ----- the channel -----

  /** A Go slice: the first `len` entries of its array, which is its capacity long. */
  datatype Slice = Slice(data: array<int>, len: nat)

  /** Keeps the unexpired entries of `history`, in order, at the front of its own array. */
  method CompactInPlace(data: array<int>, n: nat, cutoff: int) returns (m: nat)
    requires n <= data.Length
    modifies data
    ensures m <= n && data[..m] == Filter(After(cutoff), old(data[..n]))
  {
    m := 0;
    var i := 0;
    while i < n
      invariant m <= i <= n
      invariant data[..m] == Filter(After(cutoff), old(data[..i]))
      invariant data[i..n] == old(data[i..n])
    {
      var sentAt := data[i];
      assert sentAt == old(data[i..n])[0] == old(data[i]);
      assert old(data[..i + 1]) == old(data[..i]) + [old(data[i])];
      FilterSnoc(After(cutoff), old(data[..i]), old(data[i]));
      if sentAt > cutoff {
        data[m] := sentAt;
        assert data[..m + 1] == data[..m] + [sentAt];
        m := m + 1;
      }
      assert data[i + 1..n] == old(data[i..n])[1..] == old(data[i + 1..n]);
      i := i + 1;
    }
  }

  /** `append`: in place while there is room, else into a larger array. */
  method Append(data: array<int>, len: nat, now: int) returns (result: array<int>)
    requires len <= data.Length
    modifies data
    ensures len < result.Length && result[..len + 1] == old(data[..len]) + [now]
    ensures result == data || fresh(result)
  {
    result := data;
    if len == data.Length {
      result := new int[2 * len + 1];
      forall i | 0 <= i < len {
        result[i] := data[i];
      }
      assert result[..len] == data[..len];
    }
    result[len] := now;
    assert result[..len + 1] == result[..len] + [now];
  }

  class SmtpChannel {
    var recentSends: map<string, Slice>

    ghost predicate Valid()
      reads this, set k | k in recentSends :: recentSends[k].data
    {
      && (forall k :: k in recentSends ==> recentSends[k].len <= recentSends[k].data.Length)
      && (forall j, k :: j in recentSends && k in recentSends && j != k ==> recentSends[j].data != recentSends[k].data)
    }

    ghost function History(k: string): seq<int>
      requires Valid()
      reads this, set k | k in recentSends :: recentSends[k].data
    {
      if k in recentSends then recentSends[k].data[..recentSends[k].len] else []
    }

    constructor ()
      ensures Valid() && recentSends == map[]
    {
      recentSends := map[];
    }

    /** Allowed exactly when fewer than ten sends to this key are younger than an hour; then `now` joins
        them. Other keys' histories are left alone. */
    method AllowSend(pubkey: string, now: int) returns (allowed: bool)
      requires Valid()
      modifies this, set k | k in recentSends && k == pubkey :: recentSends[k].data
      ensures Valid()
      ensures allowed == Allows(old(History(pubkey)), now)
      ensures History(pubkey) == Recorded(old(History(pubkey)), now)
      ensures forall k :: k != pubkey ==> History(k) == old(History(k))
    {
      hide Filter;
      var cutoff := now - HOUR;
      var data: array<int>, len: nat;
      if pubkey in recentSends {
        data, len := recentSends[pubkey].data, recentSends[pubkey].len;
      } else {
        data, len := new int[0], 0;
      }
      len := CompactInPlace(data, len, cutoff);
      if len >= PER_HOUR {
        recentSends := recentSends[pubkey := Slice(data, len)];
        return false;
      }
      data := Append(data, len, now);
      recentSends := recentSends[pubkey := Slice(data, len + 1)];
      return true;
    }
  }
}
