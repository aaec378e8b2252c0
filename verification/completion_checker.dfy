/**
 The completion-status classifier: decides from a TMDB record and two local-library flags whether
 a TV or anime series has finished airing, and why.

 Every exception the reads below can raise is a `PyError` value, and the two catch-all handlers
 of the service become explicit `match`es that turn such a value into `Unknown`. The wall clock
 and `datetime.fromisoformat` are supplied by the caller as an `Env`.
 */
module CompletionChecker {
  import opened PyValues

  /** TMDB's genre id for animation. */
  const AnimeGenreId: int := 16

  /** More whole days than this without a next episode makes a finished-looking anime suspicious. */
  const SuspiciousDaysThreshold: int := 7

  datatype CompletionStatus =
    | Unknown
    | Ongoing
    | CompletedByTmdb
    | CompletedByLocal
    | SuspiciousCompleted

  /** Why a status was chosen: one alternative per place that builds a reason string. */
  datatype Reason =
    | OfficiallyEnded(status: string, inProductionText: string)
    | StaleAnime
    | NoNextEpisode
    | NextAirDatePassed(airDate: string)
    | Airing(status: string)
    | TmdbDataError(error: PyError)
    | LocalLibraryComplete
    | NotEnoughInformation
    | CheckFailed(error: PyError)

  datatype Verdict = Verdict(status: CompletionStatus, reason: Reason)

  /**
   What the classifier reads from outside: the current local time (`datetime.now()`, naive, in
   microseconds) and `datetime.fromisoformat` on strings (`None` where it raises ValueError).
   */
  datatype Env = Env(now: int, parse: string -> Option<DateTime>)

  /** The reason string attached to a verdict; never empty. */
  function ReasonText(r: Reason): (t: string)
    ensures |t| > 0
  {
    match r
    case OfficiallyEnded(status, inProductionText) =>
      "TMDB标记为已完结 (status=" + status + ", in_production=" + inProductionText + ")"
    case StaleAnime => "动漫超过7天无下一集信息"
    case NoNextEpisode => "TMDB显示无下一集播出计划"
    case NextAirDatePassed(airDate) => "下一集计划播出时间已过(" + airDate + ")，但可能数据未更新"
    case Airing(status) => "TMDB显示连载中 (status=" + status + ")"
    case TmdbDataError(error) => "TMDB数据解析出错: " + Message(error)
    case LocalLibraryComplete => "本地媒体库已包含全部集数"
    case NotEnoughInformation => "无足够信息判断完结状态，继续监控"
    case CheckFailed(error) => "检查过程出错: " + Message(error)
  }

  // ---------------------------------------------------------------- field reads

  /** `tmdb_info.get('status', '').strip()`: a missing status reads as "", a non-string raises. */
  function StatusText(d: Record): (r: Result<string, PyError>)
    ensures "status" !in d ==> r == Ok("")
    ensures r.Ok? <==> ("status" !in d || d["status"].JStr?)
    ensures r.Ok? && "status" in d ==> r.value == Strip(d["status"].s)
  {
    match GetOr(d, "status", JStr(""))
    case JStr(s) => Ok(Strip(s))
    case v => Err(NoAttribute(TypeName(v), "strip"))
  }

  /** `tmdb_info.get('in_production', True)`: a missing flag reads as "still in production". */
  function InProduction(d: Record): (v: Json)
    ensures "in_production" in d ==> v == d["in_production"]
    ensures "in_production" !in d ==> v == JBool(true)
  {
    GetOr(d, "in_production", JBool(true))
  }

  /** TMDB's own completion mark: status "Ended" and the production flag false. */
  predicate MarkedEnded(d: Record)
    ensures MarkedEnded(d) <==>
              "status" in d && d["status"].JStr? && Strip(d["status"].s) == "Ended"
              && "in_production" in d && !Truthy(d["in_production"])
  {
    StatusText(d) == Ok("Ended") && !Truthy(InProduction(d))
  }

  // ---------------------------------------------------------------- anime test

  /** `16 in genre_ids`, including what that raises when `genre_ids` is not a container. */
  function ContainsAnimeId(ids: Json): (r: Result<bool, PyError>)
    ensures ids.JList? ==> r == Ok(JInt(AnimeGenreId) in ids.items)
    ensures r.Err? <==> !(ids.JList? || ids.JObject?)
    ensures ids.JStr? ==> r == Err(StrContainsNonStr)
    ensures r.Err? && !ids.JStr? ==> r == Err(NotAContainer(TypeName(ids)))
  {
    match ids
    case JList(items) => Ok(JInt(AnimeGenreId) in items)
    case JObject(_) => Ok(false)      // membership tests the keys, which are strings
    case JStr(_) => Err(StrContainsNonStr)
    case _ => Err(NotAContainer(TypeName(ids)))
  }

  /** `isinstance(genre, dict) and genre.get('id') == 16` */
  predicate IsAnimeGenre(genre: Json)
    ensures IsAnimeGenre(genre) <==>
              genre.JObject? && "id" in genre.fields && genre.fields["id"] == JInt(AnimeGenreId)
  {
    genre.JObject? && Get(genre.fields, "id") == JInt(AnimeGenreId)
  }

  /** The early-return search over a `genres` list: true as soon as one entry is the anime genre. */
  function AnyAnimeGenre(genres: seq<Json>): (r: bool)
    ensures r <==> exists i :: 0 <= i < |genres| && IsAnimeGenre(genres[i])
  {
    if genres == [] then false
    else if IsAnimeGenre(genres[0]) then true
    else AnyAnimeGenre(genres[1..])
  }

  /** The loop over `genres`, including what iterating a non-iterable raises. */
  function GenresHaveAnime(genres: Json): (r: Result<bool, PyError>)
    ensures r.Err? <==> !(genres.JList? || genres.JStr? || genres.JObject?)
    ensures r.Err? ==> r.error == NotIterable(TypeName(genres))
    ensures genres.JList? ==> r == Ok(exists i :: 0 <= i < |genres.items| && IsAnimeGenre(genres.items[i]))
    ensures r == Ok(true) ==> genres.JList? && exists i :: 0 <= i < |genres.items| && IsAnimeGenre(genres.items[i])
  {
    match genres
    case JList(items) => Ok(AnyAnimeGenre(items))
    case JStr(_) => Ok(false)         // iterates one-character strings, never dicts
    case JObject(_) => Ok(false)      // iterates the keys, never dicts
    case _ => Err(NotIterable(TypeName(genres)))
  }

  /** Whether well-shaped genre fields tag anime: id 16 listed, or a `genres` entry with id 16. */
  predicate AnimeTagged(ids: seq<Json>, genres: seq<Json>) {
    JInt(AnimeGenreId) in ids || exists i :: 0 <= i < |genres| && IsAnimeGenre(genres[i])
  }

  /** `_is_anime`: the genre id in `genre_ids` is checked first, then the `genres` entries. */
  function IsAnime(d: Record): (r: Result<bool, PyError>)
    ensures var ids := GetOr(d, "genre_ids", JList([]));
            var genres := GetOr(d, "genres", JList([]));
            && (r.Err? <==> ContainsAnimeId(ids).Err?
                            || (ContainsAnimeId(ids) == Ok(false) && GenresHaveAnime(genres).Err?))
            && (ContainsAnimeId(ids).Err? ==> r == Err(ContainsAnimeId(ids).error))
            && (ContainsAnimeId(ids) == Ok(false) ==> r == GenresHaveAnime(genres))
            && (r.Ok? ==> (r.value <==> AnimeTagged(if ids.JList? then ids.items else [],
                                                    if genres.JList? then genres.items else [])))
  {
    var ids := GetOr(d, "genre_ids", JList([]));
    var genres := GetOr(d, "genres", JList([]));
    match ContainsAnimeId(ids)
    case Err(e) => Err(e)
    case Ok(found) => if found then Ok(true) else GenresHaveAnime(genres)
  }

  // ---------------------------------------------------------------- staleness

  /**
   `_is_long_time_no_update`: more than seven whole days since the last air date. Whatever
   `fromisoformat` or the date arithmetic raises reads as "not stale".
   */
  function LastAirDateIsStale(lastAirDate: Json, env: Env): (r: bool)
    ensures r <==> lastAirDate.JStr?
                   && env.parse(lastAirDate.s).Some?
                   && !env.parse(lastAirDate.s).value.aware
                   && env.now - env.parse(lastAirDate.s).value.micros >= (SuspiciousDaysThreshold + 1) * MicrosPerDay
  {
    match lastAirDate
    case JStr(s) =>
      (match env.parse(s)
       case None => false                       // ValueError
       case Some(last) =>
         if last.aware then false               // TypeError from naive - aware
         else DaysBetween(last.micros, env.now) > SuspiciousDaysThreshold)
    case _ => false                             // TypeError: fromisoformat wants a str
  }

  // ---------------------------------------------------------------- TMDB sub-check

  /**
   No next episode is listed: a stale anime is suspicious, anything else counts as completed.
   The anime test is only run when there is a last air date, and what it raises escapes.
   */
  function NoNextEpisodeStep(d: Record, env: Env): (r: Result<Verdict, PyError>)
    ensures var last := Get(d, "last_air_date");
            && (r.Err? <==> Truthy(last) && IsAnime(d).Err?)
            && (r.Err? ==> r == Err(IsAnime(d).error))
            && (r.Ok? ==> r.value in {Verdict(SuspiciousCompleted, StaleAnime), Verdict(CompletedByTmdb, NoNextEpisode)})
            && (r.Ok? && r.value.status == SuspiciousCompleted <==>
                  Truthy(last) && IsAnime(d) == Ok(true) && LastAirDateIsStale(last, env))
  {
    var last := Get(d, "last_air_date");
    if !Truthy(last) then Ok(Verdict(CompletedByTmdb, NoNextEpisode))
    else
      match IsAnime(d)
      case Err(e) => Err(e)
      case Ok(anime) =>
        if anime && LastAirDateIsStale(last, env) then Ok(Verdict(SuspiciousCompleted, StaleAnime))
        else Ok(Verdict(CompletedByTmdb, NoNextEpisode))
  }

  /** `next_episode.get('air_date')` for an episode that is a dict, and `None` otherwise. */
  function AirDate(next: Json): (air: Json)
    ensures next.JObject? && "air_date" in next.fields ==> air == next.fields["air_date"]
    ensures !(next.JObject? && "air_date" in next.fields) ==> air == JNull
  {
    if next.JObject? then Get(next.fields, "air_date") else JNull
  }

  /**
   A next episode is listed: the series is ongoing, and a past air date only changes the reason.
   A non-dict episode, a non-string date or a timezone-aware date raises; a date that does not
   parse is ignored.
   */
  function ScheduledStep(status: string, next: Json, env: Env): (r: Result<Verdict, PyError>)
    ensures var air := AirDate(next);
            && (r.Err? <==>
                  !next.JObject?
                  || (Truthy(air) && (!air.JStr? || (env.parse(air.s).Some? && env.parse(air.s).value.aware))))
            && (!next.JObject? ==> r == Err(NoAttribute(TypeName(next), "get")))
            && (next.JObject? && Truthy(air) && !air.JStr? ==> r == Err(IsoFormatArgNotStr))
            && ((next.JObject? && air.JStr? && Truthy(air) && env.parse(air.s).Some?
                 && env.parse(air.s).value.aware) ==> r == Err(NaiveAwareCompare))
            && (r.Ok? ==> r.value.status == Ongoing)
            && (r.Ok? ==> r.value.reason == Airing(status) || (air.JStr? && r.value.reason == NextAirDatePassed(air.s)))
            && (r.Ok? && r.value.reason.NextAirDatePassed? <==>
                  next.JObject? && air.JStr? && Truthy(air) && env.parse(air.s).Some?
                  && !env.parse(air.s).value.aware && env.parse(air.s).value.micros < env.now)
  {
    if !next.JObject? then Err(NoAttribute(TypeName(next), "get"))
    else
      var airDate := AirDate(next);
      if !Truthy(airDate) then Ok(Verdict(Ongoing, Airing(status)))
      else
        match airDate
        case JStr(s) =>
          (match env.parse(s)
           case None => Ok(Verdict(Ongoing, Airing(status)))   // ValueError is swallowed
           case Some(nextDate) =>
             if nextDate.aware then Err(NaiveAwareCompare)
             else if nextDate.micros < env.now then Ok(Verdict(Ongoing, NextAirDatePassed(s)))
             else Ok(Verdict(Ongoing, Airing(status))))
        case _ => Err(IsoFormatArgNotStr)
  }

  /** The body of `_check_tmdb_completion` up to its catch-all handler. */
  function TmdbSteps(d: Record, env: Env): (r: Result<Verdict, PyError>)
    ensures r.Ok? ==> r.value.status != Unknown && r.value.status != CompletedByLocal
    ensures StatusText(d).Err? ==> r == Err(StatusText(d).error)
    ensures MarkedEnded(d) ==> r.Ok? && r.value.status == CompletedByTmdb
  {
    match StatusText(d)
    case Err(e) => Err(e)
    case Ok(status) =>
      var inProduction := InProduction(d);
      if status == "Ended" && !Truthy(inProduction) then
        Ok(Verdict(CompletedByTmdb, OfficiallyEnded(status, FalsyText(inProduction))))
      else
        var next := Get(d, "next_episode_to_air");
        if next == JNull then NoNextEpisodeStep(d, env) else ScheduledStep(status, next, env)
  }

  /** `_check_tmdb_completion`: whatever the steps raise becomes `Unknown`, and only that does. */
  function CheckTmdbCompletion(d: Record, env: Env): (r: Verdict)
    ensures r.status == Unknown <==> TmdbSteps(d, env).Err?
    ensures TmdbSteps(d, env).Err? ==> r == Verdict(Unknown, TmdbDataError(TmdbSteps(d, env).error))
    ensures TmdbSteps(d, env).Ok? ==> r == TmdbSteps(d, env).value
  {
    match TmdbSteps(d, env)
    case Ok(v) => v
    case Err(e) => Verdict(Unknown, TmdbDataError(e))
  }

  // ---------------------------------------------------------------- overall check

  /** `if tmdb_info:` -- present and not an empty dict. */
  predicate HasTmdbInfo(tmdb: Option<Record>)
    ensures HasTmdbInfo(tmdb) <==> tmdb.Some? && tmdb.value != map[]
  {
    tmdb.Some? && |tmdb.value| != 0
  }

  /** The body of `check_completion_status` up to its catch-all handler; nothing in it raises. */
  function ClassifySteps(tmdb: Option<Record>, localExists: bool, localComplete: bool, env: Env)
    : (r: Result<Verdict, PyError>)
    ensures r.Ok? && r.value.status != Unknown
  {
    if HasTmdbInfo(tmdb) && CheckTmdbCompletion(tmdb.value, env).status != Unknown then
      Ok(CheckTmdbCompletion(tmdb.value, env))
    else if localExists && localComplete then Ok(Verdict(CompletedByLocal, LocalLibraryComplete))
    else Ok(Verdict(Ongoing, NotEnoughInformation))
  }

  /** `check_completion_status`: TMDB first, then the local library, then "keep watching". */
  function CheckCompletionStatus(tmdb: Option<Record>, localExists: bool, localComplete: bool, env: Env)
    : (r: Verdict)
    ensures r.status != Unknown
  {
    match ClassifySteps(tmdb, localExists, localComplete, env)
    case Ok(v) => v
    case Err(e) => Verdict(Unknown, CheckFailed(e))
  }

  // ---------------------------------------------------------------- public helpers

  /** `get_completion_reason`: a fixed explanation per status. */
  function CompletionReason(status: CompletionStatus): (t: string)
    ensures |t| > 0
  {
    match status
    case Unknown => "无法确定完结状态"
    case Ongoing => "正在连载中"
    case CompletedByTmdb => "根据TMDB官方数据判定为已完结"
    case CompletedByLocal => "根据本地媒体库判定为已完结"
    case SuspiciousCompleted => "疑似已完结，但需进一步确认"
  }

  /**
   `is_anime_completed_by_tmdb`: only anime can count as completed; the anime test runs outside
   any handler, so what it raises escapes.
   */
  function IsAnimeCompletedByTmdb(d: Record, env: Env): (r: Result<bool, PyError>)
    ensures IsAnime(d) == Ok(false) ==> r == Ok(false)
    ensures r.Err? <==> IsAnime(d).Err?
  {
    match IsAnime(d)
    case Err(e) => Err(e)
    case Ok(anime) =>
      if !anime then Ok(false)
      else
        var status := CheckTmdbCompletion(d, env).status;
        Ok(status == CompletedByTmdb || status == SuspiciousCompleted)
  }

  /**
   `get_next_episode_date`: the parsed `next_episode_to_air.air_date`, or `None` when there is
   none or it does not parse. Reading a non-dict episode or parsing a non-string raises.
   */
  function NextEpisodeDate(d: Record, env: Env): (r: Result<Option<DateTime>, PyError>)
    ensures var next := Get(d, "next_episode_to_air");
            var air := AirDate(next);
            && (r.Err? <==> Truthy(next) && (!next.JObject? || (Truthy(air) && !air.JStr?)))
            && (Truthy(next) && !next.JObject? ==> r == Err(NoAttribute(TypeName(next), "get")))
            && (next.JObject? && Truthy(air) && !air.JStr? ==> r == Err(IsoFormatArgNotStr))
            && (next.JObject? && air.JStr? && Truthy(air) ==> r == Ok(env.parse(air.s)))
            && (r.Ok? && r.value.Some? ==> next.JObject? && air.JStr? && env.parse(air.s) == r.value)
  {
    var next := Get(d, "next_episode_to_air");
    if !Truthy(next) then Ok(None)
    else if !next.JObject? then Err(NoAttribute(TypeName(next), "get"))
    else
      var airDate := Get(next.fields, "air_date");
      if !Truthy(airDate) then Ok(None)
      else
        match airDate
        case JStr(s) => Ok(env.parse(s))          // ValueError reads as None
        case _ => Err(IsoFormatArgNotStr)
  }

  /**
   `is_long_time_no_update`: more than `days` whole days since `last_air_date`. Unlike the
   private check only ValueError is caught, so a non-string or a timezone-aware date raises.
   */
  function IsLongTimeNoUpdate(d: Record, days: int, env: Env): (r: Result<bool, PyError>)
    ensures var last := Get(d, "last_air_date");
            && (r.Err? <==>
                  Truthy(last) && (!last.JStr? || (env.parse(last.s).Some? && env.parse(last.s).value.aware)))
            && (Truthy(last) && !last.JStr? ==> r == Err(IsoFormatArgNotStr))
            && (r.Err? && last.JStr? ==> r == Err(NaiveAwareSubtract))
            && (r.Ok? ==>
                  (r.value <==>
                     last.JStr? && Truthy(last) && env.parse(last.s).Some? && !env.parse(last.s).value.aware
                     && env.now - env.parse(last.s).value.micros >= (days + 1) * MicrosPerDay))
  {
    var last := Get(d, "last_air_date");
    if !Truthy(last) then Ok(false)
    else
      match last
      case JStr(s) =>
        (match env.parse(s)
         case None => Ok(false)                   // ValueError is swallowed
         case Some(lastDate) =>
           if lastDate.aware then Err(NaiveAwareSubtract)
           else Ok(DaysBetween(lastDate.micros, env.now) > days))
      case _ => Err(IsoFormatArgNotStr)
  }
}
