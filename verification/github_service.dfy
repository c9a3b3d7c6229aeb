/** The fetcher of the owner's repositories from the hosting API, with its
    process-wide cache cell `(_cached_repos, _cache_time)`.

    The network is an input: `ReposReply` is what the repository listing
    request yields (a status and a decoded body, or a request exception),
    and a function from a repository's API URL to a `LangReply` says what its
    `/languages` request yields. The clock is an integer count of
    microseconds, the resolution of `datetime`. */
module GitHub {
  import opened Seqs

  /** `_cache_duration = timedelta(seconds=5)`, in microseconds. */
  const CacheDuration: int := 5_000_000

  const NoLanguage: string := "No especificado"
  const NoDescription: string := "Sin descripci\U{F3}n"

  /** One element of the upstream repository listing. */
  datatype UpstreamRepo = UpstreamRepo(
    id: int,
    name: string,
    description: Option<string>,
    url: string,
    htmlUrl: string,
    language: Option<string>,
    stargazersCount: int,
    updatedAt: string)

  /** What `requests.get(...)` of the listing gives: a response, or a
      `RequestException`. */
  datatype ReposReply =
    | ReposResponse(status: int, body: seq<UpstreamRepo>)
    | ReposRequestError

  /** What the `/languages` request of one repository gives; the body is the
      decoded object, language name to byte count, in document order. */
  datatype LangReply =
    | LangResponse(status: int, body: seq<(string, int)>)
    | LangRequestError

  /** A language's share of the repository: `bytes` out of `total`. The source
      turns it into `round(bytes / total * 100, 1)`. */
  datatype Share = Share(bytes: int, total: int)

  /** One formatted repository, the dictionary `get_repos` builds. */
  datatype Repo = Repo(
    id: int,
    name: string,
    description: string,
    url: string,
    language: string,
    languages: seq<(string, Share)>,
    allLanguagesList: seq<string>,
    stars: int,
    updatedAt: string,
    imageUrl: Option<string>,
    githubUrl: string,
    featured: bool)

  /** Python's `value or default` on an optional string. */
  function OrDefault(value: Option<string>, default: string): string {
    if value.Some? && value.value != "" then value.value else default
  }

  /** `list(d.keys())` of a dictionary given as its items. */
  function Keys<V>(items: seq<(string, V)>): seq<string> {
    seq(|items|, i requires 0 <= i < |items| => items[i].0)
  }

  /** `sum(d.values())`. */
  function TotalBytes(items: seq<(string, int)>): int {
    if items == [] then 0 else TotalBytes(items[..|items| - 1]) + items[|items| - 1].1
  }

  predicate IsOk(reply: LangReply) {
    reply.LangResponse? && reply.status == 200
  }

  /** What `get_repo_languages` returns: nothing unless the request succeeds
      with status 200 and a non-empty body, and otherwise every language of
      the body, in order, with its share of the summed byte counts. */
  function Languages(reply: LangReply): seq<(string, Share)> {
    if IsOk(reply) && reply.body != [] then
      var total := TotalBytes(reply.body);
      seq(|reply.body|, i requires 0 <= i < |reply.body| =>
        (reply.body[i].0, Share(reply.body[i].1, total)))
    else []
  }

  /** `get_repo_languages`: the two loops, `sum` and the one that fills
      `language_percentages`. The key list of the result is that of the
      upstream body on a 200 response, and empty otherwise. */
  method GetRepoLanguages(reply: LangReply) returns (langs: seq<(string, Share)>)
    ensures langs == Languages(reply)
    ensures IsOk(reply) ==> Keys(langs) == Keys(reply.body)
    ensures !IsOk(reply) ==> langs == []
  {
    if !IsOk(reply) {
      return [];
    }
    var body := reply.body;
    if body == [] {
      return [];
    }
    var total := 0;
    for i := 0 to |body|
      invariant total == TotalBytes(body[..i])
    {
      assert body[..i + 1][..i] == body[..i];
      total := total + body[i].1;
    }
    assert body[..|body|] == body;
    langs := [];
    for i := 0 to |body|
      invariant |langs| == i
      invariant forall j :: 0 <= j < i ==> langs[j] == (body[j].0, Share(body[j].1, total))
    {
      langs := langs + [(body[i].0, Share(body[i].1, total))];
    }
  }

  /** The dictionary built for one upstream repository. */
  function FormatRepo(up: UpstreamRepo, langs: seq<(string, Share)>): Repo {
    var primary := OrDefault(up.language, NoLanguage);
    Repo(
      id := up.id,
      name := up.name,
      description := OrDefault(up.description, NoDescription),
      url := up.htmlUrl,
      language := primary,
      languages := langs,
      allLanguagesList := if langs != [] then Keys(langs) else [primary],
      stars := up.stargazersCount,
      updatedAt := up.updatedAt,
      imageUrl := None,
      githubUrl := up.htmlUrl,
      featured := false)
  }

  /** The normalisation each formatted repository goes through; like
      Python's `or`, a missing and an empty value both take the default. */
  lemma FormatRepoNormalises(up: UpstreamRepo, langs: seq<(string, Share)>)
    ensures var r := FormatRepo(up, langs);
      && r.language != "" && r.description != ""
      && (up.language.Some? && up.language.value != "" ==> r.language == up.language.value)
      && (!(up.language.Some? && up.language.value != "") ==> r.language == NoLanguage)
      && (up.description.Some? && up.description.value != "" ==> r.description == up.description.value)
      && (!(up.description.Some? && up.description.value != "") ==> r.description == NoDescription)
      && r.url == r.githubUrl == up.htmlUrl
      && !r.featured && r.imageUrl == None
      && r.allLanguagesList != []
      && (langs != [] ==> r.allLanguagesList == Keys(langs))
      && (langs == [] ==> r.allLanguagesList == [r.language])
  {
  }

  /** The loop of `get_repos` that formats a 200 response: one entry per
      upstream repository, in upstream order, each with the languages its own
      request gave. */
  method FormatRepos(body: seq<UpstreamRepo>, languages: string -> LangReply)
    returns (formatted: seq<Repo>)
    ensures |formatted| == |body|
    ensures forall i :: 0 <= i < |body| ==>
      formatted[i] == FormatRepo(body[i], Languages(languages(body[i].url)))
  {
    formatted := [];
    for i := 0 to |body|
      invariant |formatted| == i
      invariant forall j :: 0 <= j < i ==>
        formatted[j] == FormatRepo(body[j], Languages(languages(body[j].url)))
    {
      var langs := GetRepoLanguages(languages(body[i].url));
      formatted := formatted + [FormatRepo(body[i], langs)];
    }
  }

  /** The cache test of `get_repos`: both fields set and strictly less than
      the window elapsed. */
  predicate Fresh(cachedRepos: Option<seq<Repo>>, cacheTime: Option<int>, now: int) {
    cachedRepos.Some? && cacheTime.Some? && now - cacheTime.value < CacheDuration
  }

  /** The window is half-open: a cache written at `t` serves up to, but not
      at, `t + CacheDuration`; and a missing field always means a fetch. */
  lemma FreshnessIsStrict(repos: seq<Repo>, t: int, now: int)
    ensures Fresh(Some(repos), Some(t), now) <==> now < t + CacheDuration
    ensures !Fresh(Some(repos), Some(t), t + CacheDuration)
    ensures !Fresh(None, Some(t), now) && !Fresh(Some(repos), None, now)
  {
  }

  /** The class-level cache of `GitHubService`. */
  class GitHubService {
    var cachedRepos: Option<seq<Repo>>
    var cacheTime: Option<int>

    constructor ()
      ensures cachedRepos == None && cacheTime == None
    {
      cachedRepos := None;
      cacheTime := None;
    }

    predicate IsFresh(now: int)
      reads this
    {
      Fresh(cachedRepos, cacheTime, now)
    }

    /** `get_repos`, called at time `now`; `finishedAt` is the second clock
        reading, taken once the upstream calls are done. `contacted` tells
        whether the upstream API was called. */
    method GetRepos(now: int, reply: ReposReply, languages: string -> LangReply, finishedAt: int)
      returns (repos: seq<Repo>, contacted: bool)
      modifies this
      ensures contacted <==> !old(IsFresh(now))
      // a fresh cache is served as it is
      ensures old(IsFresh(now)) ==>
        repos == old(cachedRepos).value
        && cachedRepos == old(cachedRepos) && cacheTime == old(cacheTime)
      // a 200 response is formatted and becomes the cache
      ensures !old(IsFresh(now)) && reply.ReposResponse? && reply.status == 200 ==>
        && |repos| == |reply.body|
        && (forall i :: 0 <= i < |repos| ==>
              repos[i] == FormatRepo(reply.body[i], Languages(languages(reply.body[i].url))))
        && cachedRepos == Some(repos) && cacheTime == Some(finishedAt)
      // any other status gives nothing and keeps the cache
      ensures !old(IsFresh(now)) && reply.ReposResponse? && reply.status != 200 ==>
        repos == [] && cachedRepos == old(cachedRepos) && cacheTime == old(cacheTime)
      // a request exception falls back to a non-empty stale cache
      ensures !old(IsFresh(now)) && reply.ReposRequestError? ==>
        && repos == (if old(cachedRepos).Some? && old(cachedRepos).value != [] then old(cachedRepos).value else [])
        && cachedRepos == old(cachedRepos) && cacheTime == old(cacheTime)
    {
      if cachedRepos.Some? && cacheTime.Some? {
        if now - cacheTime.value < CacheDuration {
          return cachedRepos.value, false;
        }
      }
      contacted := true;
      match reply
      case ReposResponse(status, body) =>
        if status == 200 {
          repos := FormatRepos(body, languages);
          cachedRepos := Some(repos);
          cacheTime := Some(finishedAt);
        } else {
          repos := [];
        }
      case ReposRequestError =>
        repos := if cachedRepos.Some? && cachedRepos.value != [] then cachedRepos.value else [];
    }

    /** `clear_cache`: both fields are emptied, so the next `GetRepos`
        contacts the API whatever the time. */
    method ClearCache()
      modifies this
      ensures cachedRepos == None && cacheTime == None
      ensures forall now :: !IsFresh(now)
    {
      cachedRepos := None;
      cacheTime := None;
    }
  }
}
