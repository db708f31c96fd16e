/**
 * The `most-recent` sentinel of the `select` mode: before the filter is
 * built, every date token that is exactly `most-recent` is overwritten, in
 * place, with the token of the latest month on record for the reference
 * series.
 */
module MostRecent {

  import opened Maybe
  import opened DateToken

  const Sentinel := "most-recent"

  /** The token a date resolves to. */
  function Resolve(token: string, latest: YearMonth): string {
    if token == Sentinel then FormatToken(latest.year, latest.month) else token
  }

  /** The date list after every sentinel has been resolved. */
  function Substituted(dates: seq<string>, latest: YearMonth): seq<string>
    decreases |dates|
  {
    if dates == [] then []
    else Substituted(dates[..|dates| - 1], latest) + [Resolve(dates[|dates| - 1], latest)]
  }

  /** The substitution loop: overwrite each sentinel element of `dates`. */
  method SubstituteSentinels(dates: array<string>, latest: YearMonth)
    modifies dates
    ensures dates[..] == Substituted(old(dates[..]), latest)
  {
    for i := 0 to dates.Length
      invariant dates[..i] == Substituted(old(dates[..i]), latest)
      invariant dates[i..] == old(dates[i..])
    {
      ghost var done, rest := dates[..i], dates[i + 1..];
      assert old(dates[..i + 1])[..i] == old(dates[..i]);
      assert old(dates[..i + 1])[i] == old(dates[i]);
      assert rest == old(dates[i + 1..]);
      if dates[i] == Sentinel {
        dates[i] := FormatToken(latest.year, latest.month);
      }
      assert dates[..i + 1] == done + [Resolve(old(dates[i]), latest)];
      assert dates[i + 1..] == rest;
    }
    assert dates[..] == dates[..dates.Length];
    assert old(dates[..]) == old(dates[..dates.Length]);
  }

  /**
   * `handleCPISelect` before the filter is built: the latest month is looked
   * up, and the list rewritten, only when some element is the sentinel. When
   * there is no record to look up, reading its month at the first sentinel
   * throws before anything is written.
   */
  method ResolveDates(dates: array<string>, latest: Option<YearMonth>) returns (thrown: bool)
    modifies dates
    ensures thrown <==> Sentinel in old(dates[..]) && latest.None?
    ensures Sentinel in old(dates[..]) && latest.Some? ==>
      dates[..] == Substituted(old(dates[..]), latest.value)
    ensures Sentinel !in old(dates[..]) || thrown ==> dates[..] == old(dates[..])
  {
    thrown := false;
    if Sentinel in dates[..] {
      if latest.None? {
        return true;
      }
      SubstituteSentinels(dates, latest.value);
    }
  }

  // ---------------------------------------------------------------------------
  // Properties of the substitution

  /** Same length; a sentinel becomes the latest month's token; every other element is kept. */
  lemma {:induction false} SubstitutedAt(dates: seq<string>, latest: YearMonth, k: int)
    requires 0 <= k < |dates|
    ensures |Substituted(dates, latest)| == |dates|
    ensures Substituted(dates, latest)[k] ==
      if dates[k] == Sentinel then FormatToken(latest.year, latest.month) else dates[k]
    decreases |dates|
  {
    var init := dates[..|dates| - 1];
    if k < |init| {
      SubstitutedAt(init, latest, k);
    } else if |init| > 0 {
      SubstitutedAt(init, latest, 0);
    }
  }

  /** No sentinel survives the substitution. */
  lemma NoSentinelLeft(dates: seq<string>, latest: YearMonth)
    ensures Sentinel !in Substituted(dates, latest)
  {
    if Sentinel in Substituted(dates, latest) {
      var k :| 0 <= k < |Substituted(dates, latest)| && Substituted(dates, latest)[k] == Sentinel;
      SubstitutedLength(dates, latest);
      SubstitutedAt(dates, latest, k);
      FormatTokenIsNotSentinel(latest);
      assert false;
    }
  }

  lemma {:induction false} SubstitutedLength(dates: seq<string>, latest: YearMonth)
    ensures |Substituted(dates, latest)| == |dates|
    decreases |dates|
  {
    if dates != [] {
      SubstitutedLength(dates[..|dates| - 1], latest);
    }
  }

  lemma FormatTokenIsNotSentinel(latest: YearMonth)
    ensures FormatToken(latest.year, latest.month) != Sentinel
  {
    var t := FormatToken(latest.year, latest.month);
    assert t[0] == IntToString(latest.year)[0];
    assert Sentinel[0] == 'm';
  }

  /** Substituting a second time changes nothing. */
  lemma SubstituteIdempotent(dates: seq<string>, latest: YearMonth)
    ensures Substituted(Substituted(dates, latest), latest) == Substituted(dates, latest)
  {
    var once := Substituted(dates, latest);
    NoSentinelLeft(dates, latest);
    SubstitutedLength(once, latest);
    forall k | 0 <= k < |once|
      ensures Substituted(once, latest)[k] == once[k]
    {
      SubstitutedAt(once, latest, k);
    }
  }
}
