/**
 What the completion checker promises, stated over all inputs: the precedence of TMDB over the
 local library, the TMDB sub-check's branch by branch outcome, the strict seven-day boundary, the
 anime test, and the helpers' behaviour when a date is missing or does not parse.
 */
module CompletionProperties {
  import opened PyValues
  import opened CompletionChecker

  // ---------------------------------------------------------------- precedence

  /** A TMDB verdict other than `Unknown` is returned as is, whatever the local library says. */
  lemma TmdbVerdictTakesPrecedence(tmdb: Option<Record>, localExists: bool, localComplete: bool, env: Env)
    requires HasTmdbInfo(tmdb) && CheckTmdbCompletion(tmdb.value, env).status != Unknown
    ensures CheckCompletionStatus(tmdb, localExists, localComplete, env) == CheckTmdbCompletion(tmdb.value, env)
  {
  }

  /** Without a usable TMDB verdict the local library decides between complete and ongoing. */
  lemma LocalLibraryFallback(tmdb: Option<Record>, localExists: bool, localComplete: bool, env: Env)
    requires !HasTmdbInfo(tmdb) || CheckTmdbCompletion(tmdb.value, env).status == Unknown
    ensures var r := CheckCompletionStatus(tmdb, localExists, localComplete, env);
            if localExists && localComplete then r == Verdict(CompletedByLocal, LocalLibraryComplete)
            else r == Verdict(Ongoing, NotEnoughInformation)
  {
  }

  /**
   The local library is consulted only as a fallback: the overall result is `CompletedByLocal`
   exactly when TMDB gave no verdict and the library holds every episode.
   */
  lemma LocalCompletionIff(tmdb: Option<Record>, localExists: bool, localComplete: bool, env: Env)
    ensures CheckCompletionStatus(tmdb, localExists, localComplete, env).status == CompletedByLocal
            <==> (localExists && localComplete
                  && (!HasTmdbInfo(tmdb) || TmdbSteps(tmdb.value, env).Err?))
  {
  }

  /** Every verdict, from any branch, carries a non-empty reason. */
  lemma ReasonNeverEmpty(tmdb: Option<Record>, localExists: bool, localComplete: bool, env: Env)
    ensures |ReasonText(CheckCompletionStatus(tmdb, localExists, localComplete, env).reason)| > 0
    ensures tmdb.Some? ==> |ReasonText(CheckTmdbCompletion(tmdb.value, env).reason)| > 0
  {
  }

  // ---------------------------------------------------------------- official completion

  /** Status "Ended" with production over completes the series, whatever else the record holds. */
  lemma OfficialCompletion(d: Record, env: Env)
    requires MarkedEnded(d)
    ensures CheckTmdbCompletion(d, env) == Verdict(CompletedByTmdb, OfficiallyEnded("Ended", FalsyText(InProduction(d))))
  {
  }

  /** The official mark is the only route to the reason that cites it. */
  lemma OfficialReasonIff(d: Record, env: Env)
    ensures CheckTmdbCompletion(d, env).reason.OfficiallyEnded? <==> MarkedEnded(d)
  {
  }

  /** Whitespace around "Ended" is stripped before the comparison. */
  lemma PaddedEndedIsMarkedEnded(d: Record, pre: string, post: string)
    requires AllSpace(pre) && AllSpace(post)
    requires "status" in d && d["status"] == JStr(pre + "Ended" + post)
    requires "in_production" in d && !Truthy(d["in_production"])
    ensures MarkedEnded(d)
  {
    StripPadded(pre, "Ended", post);
  }

  /** A missing `in_production` counts as still in production, so "Ended" alone is not enough. */
  lemma MissingProductionFlagIsNotEnded(d: Record)
    requires "in_production" !in d
    ensures !MarkedEnded(d)
  {
  }

  /** A `status` that is present but not a string makes `.strip()` raise, which reads as `Unknown`. */
  lemma NonStringStatusIsUnknown(d: Record, env: Env)
    requires "status" in d && !d["status"].JStr?
    ensures CheckTmdbCompletion(d, env)
            == Verdict(Unknown, TmdbDataError(NoAttribute(TypeName(d["status"]), "strip")))
  {
  }

  // ---------------------------------------------------------------- no next episode

  /**
   With no next episode, the series is suspicious exactly when it has a last air date, is anime
   and aired more than seven days ago; a failing anime test gives `Unknown`; otherwise TMDB
   counts it as completed.
   */
  lemma NoNextEpisodeVerdict(d: Record, env: Env)
    requires StatusText(d).Ok? && !MarkedEnded(d)
    requires Get(d, "next_episode_to_air") == JNull
    ensures var last := Get(d, "last_air_date");
            var r := CheckTmdbCompletion(d, env);
            && (r.status == SuspiciousCompleted <==> Truthy(last) && IsAnime(d) == Ok(true) && LastAirDateIsStale(last, env))
            && (r.status == Unknown <==> Truthy(last) && IsAnime(d).Err?)
            && (r.status == CompletedByTmdb <==>
                  !Truthy(last) || IsAnime(d) == Ok(false) || (IsAnime(d) == Ok(true) && !LastAirDateIsStale(last, env)))
  {
  }

  /** `SuspiciousCompleted` arises from one situation only. */
  lemma SuspiciousIff(d: Record, env: Env)
    ensures var last := Get(d, "last_air_date");
            CheckTmdbCompletion(d, env).status == SuspiciousCompleted
            <==> (StatusText(d).Ok? && !MarkedEnded(d) && Get(d, "next_episode_to_air") == JNull
                  && Truthy(last) && IsAnime(d) == Ok(true) && LastAirDateIsStale(last, env))
  {
  }

  /**
   The staleness boundary is strict: a last air date exactly eight days back makes an anime
   without a next episode suspicious, one exactly seven days back (or anything less than eight
   whole days) does not.
   */
  lemma StalenessBoundary(d: Record, s: string, t: int, env: Env)
    requires StatusText(d).Ok? && !MarkedEnded(d)
    requires Get(d, "next_episode_to_air") == JNull
    requires Get(d, "last_air_date") == JStr(s) && s != []
    requires IsAnime(d) == Ok(true)
    requires env.parse(s) == Some(DateTime(t, false))
    ensures env.now - t == 8 * MicrosPerDay ==> CheckTmdbCompletion(d, env).status == SuspiciousCompleted
    ensures env.now - t == 7 * MicrosPerDay ==> CheckTmdbCompletion(d, env).status == CompletedByTmdb
    ensures env.now - t < 8 * MicrosPerDay ==> CheckTmdbCompletion(d, env) == Verdict(CompletedByTmdb, NoNextEpisode)
  {
  }

  // ---------------------------------------------------------------- next episode scheduled

  /** Once a next episode is listed (and the show is not officially over) nothing reads as completed. */
  lemma ScheduledNeverCompleted(d: Record, env: Env)
    requires !MarkedEnded(d)
    requires Get(d, "next_episode_to_air") != JNull
    ensures CheckTmdbCompletion(d, env).status in {Ongoing, Unknown}
  {
  }

  /**
   A well-formed next episode always means `Ongoing`; a past air date only changes the reason,
   and an empty or unparseable one is as good as none.
   */
  lemma ScheduledIsOngoing(d: Record, env: Env)
    requires StatusText(d).Ok? && !MarkedEnded(d)
    requires Get(d, "next_episode_to_air").JObject?
    requires var air := Get(Get(d, "next_episode_to_air").fields, "air_date");
             !Truthy(air) || (air.JStr? && (env.parse(air.s).None? || !env.parse(air.s).value.aware))
    ensures var air := Get(Get(d, "next_episode_to_air").fields, "air_date");
            var r := CheckTmdbCompletion(d, env);
            && r.status == Ongoing
            && (r.reason.NextAirDatePassed? <==>
                  Truthy(air) && env.parse(air.s).Some? && env.parse(air.s).value.micros < env.now)
            && (!r.reason.NextAirDatePassed? ==> r.reason == Airing(StatusText(d).value))
  {
  }

  /** A shape error around the next episode is caught and reported as `Unknown`. */
  lemma ScheduledShapeErrors(d: Record, env: Env)
    requires StatusText(d).Ok? && !MarkedEnded(d)
    requires var next := Get(d, "next_episode_to_air");
             || (next != JNull && !next.JObject?)
             || (next.JObject? && Truthy(Get(next.fields, "air_date")) && !Get(next.fields, "air_date").JStr?)
    ensures var next := Get(d, "next_episode_to_air");
            CheckTmdbCompletion(d, env) ==
              Verdict(Unknown, TmdbDataError(if next.JObject? then IsoFormatArgNotStr else NoAttribute(TypeName(next), "get")))
  {
  }

  // ---------------------------------------------------------------- anime test

  /** On lists (or missing keys) the anime test never raises and is exactly `AnimeTagged`. */
  lemma IsAnimeIff(d: Record)
    requires GetOr(d, "genre_ids", JList([])).JList? && GetOr(d, "genres", JList([])).JList?
    ensures IsAnime(d) == Ok(AnimeTagged(GetOr(d, "genre_ids", JList([])).items, GetOr(d, "genres", JList([])).items))
  {
  }

  /**
   `16 in genre_ids` is evaluated first, so a `genre_ids` that is neither a list nor a dict raises
   whatever `genres` holds, and a record that reaches the anime test then reads as UNKNOWN.
   */
  lemma NonContainerIdsRaise(d: Record, env: Env)
    requires "genre_ids" in d && !d["genre_ids"].JList? && !d["genre_ids"].JObject?
    ensures IsAnime(d) == Err(ContainsAnimeId(d["genre_ids"]).error)
    ensures StatusText(d).Ok? && !MarkedEnded(d) && Get(d, "next_episode_to_air") == JNull
            && Truthy(Get(d, "last_air_date")) ==>
              CheckTmdbCompletion(d, env) == Verdict(Unknown, TmdbDataError(ContainsAnimeId(d["genre_ids"]).error))
  {
  }

  /** A confirmed anime always has the id among `genre_ids` or an anime entry among `genres`. */
  lemma AnimeHasEvidence(d: Record)
    requires IsAnime(d) == Ok(true)
    ensures var ids := GetOr(d, "genre_ids", JList([]));
            var genres := GetOr(d, "genres", JList([]));
            AnimeTagged(if ids.JList? then ids.items else [], if genres.JList? then genres.items else [])
  {
  }

  // ---------------------------------------------------------------- public helpers

  /** Non-anime is never completed; for anime the answer is the TMDB sub-check's verdict. */
  lemma AnimeCompletedIff(d: Record, env: Env)
    ensures IsAnime(d) == Ok(false) ==> IsAnimeCompletedByTmdb(d, env) == Ok(false)
    ensures IsAnime(d) == Ok(true) ==>
              IsAnimeCompletedByTmdb(d, env)
              == Ok(CheckTmdbCompletion(d, env).status in {CompletedByTmdb, SuspiciousCompleted})
  {
  }

  /** A missing, empty or unparseable next air date gives `None`, never an error. */
  lemma NextEpisodeDateAbsent(d: Record, env: Env)
    requires var next := Get(d, "next_episode_to_air");
             || !Truthy(next)
             || (next.JObject? && !Truthy(Get(next.fields, "air_date")))
             || (next.JObject? && Get(next.fields, "air_date").JStr? && env.parse(Get(next.fields, "air_date").s).None?)
    ensures NextEpisodeDate(d, env) == Ok(None)
  {
  }

  /**
   A missing, empty or unparseable last air date is never stale, in either helper (the empty
   string does not parse, as with `datetime.fromisoformat("")`).
   */
  lemma UnparsedDateIsNotStale(d: Record, days: int, env: Env)
    requires env.parse("") == None
    requires var last := Get(d, "last_air_date");
             !Truthy(last) || (last.JStr? && env.parse(last.s).None?)
    ensures !LastAirDateIsStale(Get(d, "last_air_date"), env)
    ensures IsLongTimeNoUpdate(d, days, env) == Ok(false)
  {
  }

  /**
   With the default threshold the public helper agrees with the private one whenever it does not
   raise, and it raises exactly where the private one swallows a TypeError (the empty string does
   not parse).
   */
  lemma PublicStalenessAgrees(d: Record, env: Env)
    requires env.parse("") == None
    ensures var r := IsLongTimeNoUpdate(d, SuspiciousDaysThreshold, env);
            r.Ok? ==> r.value == LastAirDateIsStale(Get(d, "last_air_date"), env)
    ensures var last := Get(d, "last_air_date");
            IsLongTimeNoUpdate(d, SuspiciousDaysThreshold, env).Err?
            <==> (Truthy(last) && (!last.JStr? || (env.parse(last.s).Some? && env.parse(last.s).value.aware)))
  {
  }

  /** `get_completion_reason` tells the five statuses apart. */
  lemma CompletionReasonDistinct(s: CompletionStatus, t: CompletionStatus)
    requires s != t
    ensures CompletionReason(s) != CompletionReason(t)
  {
  }
}
