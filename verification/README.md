# Completion-status classifier

This project is a Dafny model of the service that decides whether a TV or anime series has
finished airing. The service combines three inputs:

- a TMDB metadata record (`status`, `in_production`, `next_episode_to_air.air_date`,
  `last_air_date`, `genre_ids`, `genres`);
- two flags from the local media library: the series exists, and it is complete;
- a staleness threshold of seven days.

From these it picks one of five statuses and builds a reason string:

- `UNKNOWN`
- `ONGOING`
- `COMPLETED_BY_TMDB`
- `COMPLETED_BY_LOCAL`
- `SUSPICIOUS_COMPLETED`

The files:

- `py_values.dfy` (module `PyValues`) holds the Python semantics the service relies on:
  - JSON-shaped values (`Json`), a TMDB record as a `map<string, Json>`, and Python truthiness;
  - `dict.get`, with its default;
  - `str.strip`, over exactly the characters for which `str.isspace()` holds;
  - the exceptions the reads can raise, as `PyError` values;
  - `datetime`, as microseconds plus an aware flag, and `timedelta.days` as a floor division.
- `completion_checker.dfy` (module `CompletionChecker`) holds the service itself: the status
  enum, the reasons, the TMDB sub-check, the overall check and the public helpers.
- `completion_properties.dfy` (module `CompletionProperties`) holds lemmas about the service
  over all inputs.

How the model represents things the source does implicitly:

- **Exception handlers.** Every `try`/`except Exception` becomes a function returning
  `Result<_, PyError>` plus a `match` that turns `Err` into `Unknown`. `TmdbSteps` and
  `CheckTmdbCompletion` do this for the TMDB sub-check. `ClassifySteps` and
  `CheckCompletionStatus` do it for the overall check. `ClassifySteps` is proved never to fail,
  so the outer handler at lines 67-69 cannot be reached.
- **Clock and date parser.** Both come from the caller as an `Env`:
  - `now` is the naive local time in microseconds;
  - `parse` stands for `datetime.fromisoformat` on strings; `None` means it raised ValueError.

  Two lemmas, `UnparsedDateIsNotStale` and `PublicStalenessAgrees`, also require
  `parse("") == None`. This matches `fromisoformat("")`, which raises.
- **Reasons.** A reason is the `Reason` datatype, with one alternative per place that builds a
  reason string. `ReasonText` renders it with the service's own wording.

## Model

| member | source | states |
|---|---|---|
| PyValues.Truthy | app/media/completion_checker.py:51 | a value is false exactly when it is None, False, 0, "", [] or {}, as Python tests `if`/`and`/`not` |
| PyValues.GetOr | app/media/completion_checker.py:86-87 | `dict.get(key, default)`: the stored value when the key is present, the default otherwise |
| PyValues.Get | app/media/completion_checker.py:94 | `dict.get(key)` reads None exactly when the key is missing or holds null, and the stored value otherwise |
| PyValues.TypeName | app/media/completion_checker.py:86 | the type name quoted in an AttributeError/TypeError message is never empty |
| PyValues.FalsyText | app/media/completion_checker.py:91 | `str()` of a falsy `in_production` value; empty exactly for the empty string |
| PyValues.Message | app/media/completion_checker.py:120-122 | `str(e)` of every exception the reads can raise is non-empty |
| PyValues.SkipSpace | app/media/completion_checker.py:86 | the scan for the start of the stripped text stops at the first non-whitespace character at or after its start index, or at the end |
| PyValues.SkipSpaceBack | app/media/completion_checker.py:86 | the scan for the end of the stripped text passes only whitespace and stops just after a non-whitespace character, or at 0 |
| PyValues.Strip | app/media/completion_checker.py:86 | the stripped status is no longer than the original and neither starts nor ends with whitespace |
| PyValues.StripPadded | app/media/completion_checker.py:86 | strip returns the core of any whitespace-padded string whose core has no outer whitespace; this characterises strip |
| PyValues.DaysBetween | app/media/completion_checker.py:160 | `timedelta.days` is the floor of the elapsed time in days: days*D <= elapsed < (days+1)*D |
| CompletionChecker.ReasonText | app/media/completion_checker.py:59-122 | every reason string the service builds is non-empty |
| CompletionChecker.StatusText | app/media/completion_checker.py:86 | a missing status reads as ""; a string status is stripped; any other value raises AttributeError |
| CompletionChecker.InProduction | app/media/completion_checker.py:87 | a present `in_production` is read exactly as stored (so the reason quotes it as is); a missing one reads as True |
| CompletionChecker.MarkedEnded | app/media/completion_checker.py:86-90 | the official mark holds iff `status` is a string that strips to "Ended" and `in_production` is present and falsy |
| CompletionChecker.ContainsAnimeId | app/media/completion_checker.py:134-139 | on a list, the result is whether 16 is an element; it raises exactly when `genre_ids` is neither a list nor a dict; a string raises the "requires string as left operand" TypeError, any other non-container the "argument of type 'X' is not iterable" TypeError |
| CompletionChecker.IsAnimeGenre | app/media/completion_checker.py:143 | a genre entry is the anime genre iff it is a dict whose `id` key holds 16 |
| CompletionChecker.AnyAnimeGenre | app/media/completion_checker.py:142-146 | the early-return loop is true iff some entry is a dict whose `id` is 16 |
| CompletionChecker.GenresHaveAnime | app/media/completion_checker.py:142-146 | iterating `genres` raises exactly for non-iterables; on a list the result is whether some entry is a dict with id 16; strings and dicts give false; the error raised is "'X' object is not iterable" for the type of `genres` |
| CompletionChecker.IsAnime | app/media/completion_checker.py:124-146 | raises iff `16 in genre_ids` raises, or it is false and iterating `genres` raises, the first error winning; otherwise true iff 16 is in a list `genre_ids` or a list `genres` holds a dict with id 16 (a dict `genre_ids` falls through to `genres`); when `genre_ids` does not hold 16 the result, error included, is exactly that of the `genres` loop |
| CompletionChecker.LastAirDateIsStale | app/media/completion_checker.py:148-164 | true iff the last air date is a string that parses to a naive date at least 8 whole days (more than 7) before now; every parse or type failure reads as false |
| CompletionChecker.NoNextEpisodeStep | app/media/completion_checker.py:94-104 | with no next episode: raises iff there is a last air date and the anime test raises; SUSPICIOUS_COMPLETED (with the threshold reason) iff there is a last air date, the show is anime and the date is stale; otherwise COMPLETED_BY_TMDB with the no-next-episode reason; an error is exactly the one the anime test raised |
| CompletionChecker.AirDate | app/media/completion_checker.py:107 | the stored `air_date` of a dict next episode, None when the key is missing or the episode is not a dict |
| CompletionChecker.ScheduledStep | app/media/completion_checker.py:106-118 | with a next episode: raises iff it is not a dict, or its air date is truthy and either not a string or timezone-aware; otherwise ONGOING, with the past-date reason iff the date parses to a naive time before now; the error is the AttributeError of `.get` for a non-dict episode, the `fromisoformat` TypeError for a non-string date, and the naive/aware comparison TypeError for an aware date |
| CompletionChecker.TmdbSteps | app/media/completion_checker.py:84-118 | a normal return is never UNKNOWN or COMPLETED_BY_LOCAL; a non-string `status` raises the AttributeError of `.strip()`; "Ended" with production over always returns COMPLETED_BY_TMDB |
| CompletionChecker.CheckTmdbCompletion | app/media/completion_checker.py:71-122 | a normal result of the steps is returned unchanged; a raised error becomes UNKNOWN with that very error in the reason; UNKNOWN arises only that way |
| CompletionChecker.HasTmdbInfo | app/media/completion_checker.py:51 | `if tmdb_info:` holds iff a record is given and it is not the empty dict |
| CompletionChecker.ClassifySteps | app/media/completion_checker.py:49-65 | nothing in the overall check raises, and it never yields UNKNOWN |
| CompletionChecker.CheckCompletionStatus | app/media/completion_checker.py:32-69 | the overall check never returns UNKNOWN, because its handler is unreachable |
| CompletionChecker.CompletionReason | app/media/completion_checker.py:166-183 | every status maps to a non-empty fixed explanation |
| CompletionChecker.IsAnimeCompletedByTmdb | app/media/completion_checker.py:185-199 | non-anime gives false; it raises exactly when the anime test raises |
| CompletionChecker.NextEpisodeDate | app/media/completion_checker.py:201-217 | raises iff the next episode is truthy and not a dict, or its air date is truthy and not a string; a non-empty string air date in a dict gives exactly its parse (None when it does not parse); any returned date is that parse; the error is the AttributeError of `.get` for a non-dict episode and the `fromisoformat` TypeError for a non-string date |
| CompletionChecker.IsLongTimeNoUpdate | app/media/completion_checker.py:219-237 | for every `days`: raises iff the last air date is truthy and either not a string or timezone-aware; otherwise true iff it is a non-empty string that parses to a naive date at least days+1 whole days before now; the error is the `fromisoformat` TypeError for a non-string date and the naive/aware subtraction TypeError for an aware one |
| CompletionProperties.TmdbVerdictTakesPrecedence | app/media/completion_checker.py:51-55 | a present, non-empty TMDB record with a non-UNKNOWN verdict decides the result, whatever the local flags are |
| CompletionProperties.LocalLibraryFallback | app/media/completion_checker.py:57-65 | without a TMDB verdict: COMPLETED_BY_LOCAL when the series exists locally and is complete, otherwise ONGOING with the default reason |
| CompletionProperties.LocalCompletionIff | app/media/completion_checker.py:50-65 | COMPLETED_BY_LOCAL iff both local flags hold and the TMDB record is absent, empty, or its sub-check raised |
| CompletionProperties.ReasonNeverEmpty | app/media/completion_checker.py:32-122 | every verdict of both checks carries a non-empty reason |
| CompletionProperties.OfficialCompletion | app/media/completion_checker.py:86-91 | status "Ended" with a falsy `in_production` gives COMPLETED_BY_TMDB citing both fields, regardless of the other fields |
| CompletionProperties.OfficialReasonIff | app/media/completion_checker.py:89-91 | the official-completion reason appears iff the record is marked Ended and not in production |
| CompletionProperties.PaddedEndedIsMarkedEnded | app/media/completion_checker.py:86-90 | whitespace around "Ended" does not stop the official mark |
| CompletionProperties.MissingProductionFlagIsNotEnded | app/media/completion_checker.py:87-90 | without `in_production` the official mark never applies |
| CompletionProperties.NonStringStatusIsUnknown | app/media/completion_checker.py:86 | a present non-string `status` gives UNKNOWN, with the `.strip()` AttributeError as the reason |
| CompletionProperties.NoNextEpisodeVerdict | app/media/completion_checker.py:94-104 | with no next episode: SUSPICIOUS iff there is a last air date, the show is anime and the date is stale; UNKNOWN iff the anime test raises; COMPLETED_BY_TMDB in every other case |
| CompletionProperties.SuspiciousIff | app/media/completion_checker.py:84-104 | SUSPICIOUS_COMPLETED arises exactly on the no-next-episode, anime, stale path |
| CompletionProperties.StalenessBoundary | app/media/completion_checker.py:98-104 | an anime last aired exactly 8 days ago is SUSPICIOUS; exactly 7 days ago (or anything under 8 whole days) is COMPLETED_BY_TMDB |
| CompletionProperties.ScheduledNeverCompleted | app/media/completion_checker.py:106-122 | once a next episode is listed, the sub-check yields only ONGOING or UNKNOWN |
| CompletionProperties.ScheduledIsOngoing | app/media/completion_checker.py:107-118 | a dict next episode with an empty, unparseable or naive air date is always ONGOING; a past date changes only the reason |
| CompletionProperties.ScheduledShapeErrors | app/media/completion_checker.py:107-122 | a non-dict next episode gives UNKNOWN with the `.get` AttributeError in the reason; a truthy non-string air date gives UNKNOWN with the `fromisoformat` TypeError |
| CompletionProperties.IsAnimeIff | app/media/completion_checker.py:134-146 | for list-shaped or missing genre fields the anime test never raises and is true iff 16 is in `genre_ids` or some `genres` entry is a dict with id 16 |
| CompletionProperties.NonContainerIdsRaise | app/media/completion_checker.py:120-138 | a `genre_ids` that is neither list nor dict raises whatever `genres` holds, and a record that reaches the anime test is then UNKNOWN with that TypeError |
| CompletionProperties.AnimeHasEvidence | app/media/completion_checker.py:134-146 | an anime verdict always has 16 in `genre_ids` or an anime entry in `genres` |
| CompletionProperties.AnimeCompletedIff | app/media/completion_checker.py:195-199 | non-anime gives false; for anime the answer is true iff the sub-check gives COMPLETED_BY_TMDB or SUSPICIOUS_COMPLETED |
| CompletionProperties.NextEpisodeDateAbsent | app/media/completion_checker.py:211-217 | a missing, empty or unparseable next air date gives None, never an error |
| CompletionProperties.UnparsedDateIsNotStale | app/media/completion_checker.py:158-164 | a missing, empty or unparseable last air date is not stale in either helper, and the public helper does not raise |
| CompletionProperties.PublicStalenessAgrees | app/media/completion_checker.py:230-237 | at 7 days the public helper agrees with the private one whenever it returns; it raises exactly for a truthy non-string or a timezone-aware last air date |
| CompletionProperties.CompletionReasonDistinct | app/media/completion_checker.py:176-183 | the five explanations are pairwise different |

## Left out

- The fallback-name resolver (`Media._Media__extract_cn_fallback_name`, `Media.get_media_info`, `MetaInfo`) is not part of this model. Its source is not available; only tests call it.
- The database migration that adds the completion columns is not modelled. It is SQL I/O against a live database, with commit/rollback and matching on driver error strings.
- The test runner plumbing is not modelled.
- Logging is not modelled; it has side effects only.
- The `media_info` argument of `check_completion_status` is not modelled; it is never read.
- The enum's display values are not modelled; only the five constructors matter.
- `get_completion_reason`'s fallback `"未知状态"` is not modelled; every one of the five statuses has an entry, so it is unreachable.
- ISO-8601 parsing and the clock are parameters (`Env`). Each call reads one `now`; nothing is lost by that, because no path through the checker reads the clock twice.
- JSON floats are not modelled. For example, `in_production` 0.0 or a genre id 16.0 are outside the model.
- A TMDB argument that is not a dict is not modelled. The type hints say `Dict`/`Optional[Dict]`, so a truthy non-dict, which would make `.get` raise, is outside the model.
- PyValues.Message: the wording of `str(e)` follows CPython's messages. That wording is not part of the repository, so nothing is proved about it beyond being non-empty.
