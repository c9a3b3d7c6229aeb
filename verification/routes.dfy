/** The request handlers of the site that hold logic: the contact form, the
    password-gated admin session, blog-post creation, editing and deletion,
    the projects page, the filtered-projects API and the skills page.

    The database is the state of one `Site` object: the blog posts as a map
    from id to row and the contact messages as the list of rows in insertion
    order. The session is the `'admin_auth'` flag. A submitted form is a map
    from field name to value. Rendering, redirects and the JSON encoding are
    replaced by small outcome datatypes; the clock, the outcome of a commit
    and the outcome of sending mail are parameters. */
module Routes {
  import opened Seqs
  import opened Strings
  import GitHub

  /** `os.getenv('BLOG_PASSWORD', 'nicolas2024')`. */
  const DefaultBlogPassword: string := "nicolas2024"

  /** The shortest message the contact form accepts. */
  const MinMessageLength: int := 10

  type Form = map<string, string>

  /** `request.form.get(name, '')`. */
  function Field(form: Form, name: string): string {
    if name in form then form[name] else ""
  }

  /** The admin password: the environment's value when the variable is set,
      else the default. */
  function BlogPassword(env: Option<string>): string {
    if env.Some? then env.value else DefaultBlogPassword
  }

  // ----- records -----

  datatype ContactMessage = ContactMessage(
    name: string, email: string, subject: string, message: string,
    createdAt: int, read: bool)

  datatype BlogPost = BlogPost(
    title: string, content: string, summary: string,
    createdAt: int, updatedAt: int, order: int)

  // ----- outcomes -----

  datatype ContactError =
    | FieldsRequired      // 'Todos los campos son requeridos'
    | MessageTooShort     // 'El mensaje debe tener al menos 10 caracteres'
    | ProcessingFailed    // 'Hubo un error al procesar tu mensaje...'

  datatype ContactOutcome = MessageSent | ContactRejected(error: ContactError)

  datatype LoginOutcome = LoggedIn | WrongPassword

  datatype AdminOutcome =
    | RedirectToLogin     // the guard turned the request away
    | ShowPanel
    | RedirectToPanel     // the change was committed
    | NotFound            // `get_or_404`
    | PostRejected        // 'Título y contenido son requeridos'

  /** The create and edit forms need a stripped title and content. */
  predicate PostFormFilled(form: Form) {
    PyStrip(Field(form, "title")) != "" && PyStrip(Field(form, "content")) != ""
  }

  /** A post after a committed edit: the three stripped fields replace the
      stored ones, and `updated_at` moves to `now` exactly when one of them
      differs, since the row is written only then. The rest stays as it was. */
  function Edited(post: BlogPost, form: Form, now: int): (r: BlogPost)
    ensures r.title == PyStrip(Field(form, "title")) && r.content == PyStrip(Field(form, "content"))
    ensures r.summary == PyStrip(Field(form, "summary"))
    ensures r.createdAt == post.createdAt && r.order == post.order
    ensures (r.title, r.content, r.summary) == (post.title, post.content, post.summary) ==> r == post
    ensures (r.title, r.content, r.summary) != (post.title, post.content, post.summary) ==> r.updatedAt == now
  {
    var changed := (PyStrip(Field(form, "title")), PyStrip(Field(form, "content")), PyStrip(Field(form, "summary")))
      != (post.title, post.content, post.summary);
    post.(title := PyStrip(Field(form, "title")), content := PyStrip(Field(form, "content")),
          summary := PyStrip(Field(form, "summary")), updatedAt := if changed then now else post.updatedAt)
  }

  /** Submitting the same edit again changes nothing, whenever it happens. */
  lemma EditAgainChangesNothing(post: BlogPost, form: Form, now: int, later: int)
    ensures Edited(Edited(post, form, now), form, later) == Edited(post, form, now)
  {
  }

  /** The state the handlers share: the session flag and the tables. */
  class Site {
    const password: string
    var adminAuth: bool
    var posts: map<nat, BlogPost>
    var nextId: nat
    var messages: seq<ContactMessage>

    /** Every stored post has an id below the next one handed out. */
    ghost predicate Valid()
      reads this
    {
      forall id :: id in posts ==> id < nextId
    }

    constructor (env: Option<string>)
      ensures Valid()
      ensures password == BlogPassword(env) && !adminAuth
      ensures posts == map[] && messages == []
    {
      password := BlogPassword(env);
      adminAuth := false;
      posts := map[];
      nextId := 1;
      messages := [];
    }

    /** POST `/contacto`. Every field is stripped; an empty one rejects the
        form, then a message shorter than ten characters does; otherwise one
        row holding the stripped fields is committed, and the submission is
        reported as sent whether or not the mail is delivered. */
    method Contact(form: Form, now: int, commitFails: bool, mailFails: bool)
      returns (outcome: ContactOutcome)
      modifies this`messages
      ensures var name, email, subject, message :=
          PyStrip(Field(form, "name")), PyStrip(Field(form, "email")),
          PyStrip(Field(form, "subject")), PyStrip(Field(form, "message"));
        if name == "" || email == "" || subject == "" || message == "" then
          outcome == ContactRejected(FieldsRequired) && messages == old(messages)
        else if |message| < MinMessageLength then
          outcome == ContactRejected(MessageTooShort) && messages == old(messages)
        else if commitFails then
          outcome == ContactRejected(ProcessingFailed) && messages == old(messages)
        else
          outcome == MessageSent
          && messages == old(messages) + [ContactMessage(name, email, subject, message, now, false)]
    {
      var name := PyStrip(Field(form, "name"));
      var email := PyStrip(Field(form, "email"));
      var subject := PyStrip(Field(form, "subject"));
      var message := PyStrip(Field(form, "message"));
      if name == "" || email == "" || subject == "" || message == "" {
        return ContactRejected(FieldsRequired);
      }
      if |message| < MinMessageLength {
        return ContactRejected(MessageTooShort);
      }
      if commitFails {
        return ContactRejected(ProcessingFailed);
      }
      messages := messages + [ContactMessage(name, email, subject, message, now, false)];
      // The two notification mails are sent here; a failure is only logged.
      outcome := MessageSent;
    }

    /** POST `/admin-login`: the flag is set only by the right password; a
        wrong one leaves the session as it was. */
    method AdminLogin(form: Form) returns (outcome: LoginOutcome)
      modifies this`adminAuth
      ensures Field(form, "password") == password ==> adminAuth && outcome == LoggedIn
      ensures Field(form, "password") != password ==>
        adminAuth == old(adminAuth) && outcome == WrongPassword
    {
      if Field(form, "password") == password {
        adminAuth := true;
        outcome := LoggedIn;
      } else {
        outcome := WrongPassword;
      }
    }

    /** `/admin/logout`: `session.pop('admin_auth', None)`, so logging out
        twice is the same as once. */
    method AdminLogout()
      modifies this`adminAuth
      ensures !adminAuth
    {
      adminAuth := false;
    }

    /** `/admin` behind `require_admin_auth`: the handler runs exactly when
        the flag is set, and redirects to the login page otherwise. */
    method AdminPanel() returns (outcome: AdminOutcome)
      ensures outcome == if adminAuth then ShowPanel else RedirectToLogin
    {
      if !adminAuth {
        return RedirectToLogin;
      }
      outcome := ShowPanel;
    }

    /** POST `/admin/crear`. With the flag set and a non-empty stripped title
        and content, one post is added under a fresh id, its `order` one more
        than the number of posts before; otherwise nothing is stored. */
    method CreatePost(form: Form, now: int) returns (outcome: AdminOutcome)
      requires Valid()
      modifies this`posts, this`nextId
      ensures Valid()
      ensures !old(adminAuth) ==>
        outcome == RedirectToLogin && posts == old(posts) && nextId == old(nextId)
      ensures old(adminAuth) && !PostFormFilled(form) ==>
        outcome == PostRejected && posts == old(posts) && nextId == old(nextId)
      ensures old(adminAuth) && PostFormFilled(form) ==>
        && outcome == RedirectToPanel
        && old(nextId) !in old(posts)
        && posts == old(posts)[old(nextId) := BlogPost(
             PyStrip(Field(form, "title")), PyStrip(Field(form, "content")),
             PyStrip(Field(form, "summary")), now, now, |old(posts)| + 1)]
    {
      if !adminAuth {
        return RedirectToLogin;
      }
      var title := PyStrip(Field(form, "title"));
      var content := PyStrip(Field(form, "content"));
      var summary := PyStrip(Field(form, "summary"));
      if title == "" || content == "" {
        return PostRejected;
      }
      var post := BlogPost(title, content, summary, now, now, |posts| + 1);
      posts := posts[nextId := post];
      nextId := nextId + 1;
      outcome := RedirectToPanel;
    }

    /** POST `/admin/editar/<id>`. An unknown id is not found; a stripped
        title or content that is empty is not committed; otherwise the post
        becomes `Edited(post, form, now)`. */
    method EditPost(id: nat, form: Form, now: int) returns (outcome: AdminOutcome)
      requires Valid()
      modifies this`posts
      ensures Valid()
      ensures !old(adminAuth) ==> outcome == RedirectToLogin && posts == old(posts)
      ensures old(adminAuth) && id !in old(posts) ==> outcome == NotFound && posts == old(posts)
      ensures old(adminAuth) && id in old(posts) && !PostFormFilled(form) ==>
        outcome == PostRejected && posts == old(posts)
      ensures old(adminAuth) && id in old(posts) && PostFormFilled(form) ==>
        && outcome == RedirectToPanel
        && posts == old(posts)[id := Edited(old(posts)[id], form, now)]
    {
      if !adminAuth {
        return RedirectToLogin;
      }
      if id !in posts {
        return NotFound;
      }
      var title := PyStrip(Field(form, "title"));
      var content := PyStrip(Field(form, "content"));
      var summary := PyStrip(Field(form, "summary"));
      if title == "" || content == "" {
        // the changed object is rendered but never committed
        return PostRejected;
      }
      var post := posts[id];
      var changed := title != post.title || content != post.content || summary != post.summary;
      post := post.(title := title, content := content, summary := summary);
      if changed {
        // `updated_at` has `onupdate`, which fires only when a column changes
        post := post.(updatedAt := now);
      }
      posts := posts[id := post];
      outcome := RedirectToPanel;
    }

    /** POST `/admin/eliminar/<id>`: the post is gone afterwards, so viewing
        it again is not found. */
    method DeletePost(id: nat) returns (outcome: AdminOutcome)
      requires Valid()
      modifies this`posts
      ensures Valid()
      ensures !old(adminAuth) ==> outcome == RedirectToLogin && posts == old(posts)
      ensures old(adminAuth) && id !in old(posts) ==> outcome == NotFound && posts == old(posts)
      ensures old(adminAuth) && id in old(posts) ==>
        outcome == RedirectToPanel && posts == old(posts) - {id} && id !in posts
    {
      if !adminAuth {
        return RedirectToLogin;
      }
      if id !in posts {
        return NotFound;
      }
      posts := posts - {id};
      outcome := RedirectToPanel;
    }
  }

  // ----- projects -----

  /** A `Project` row (`featured` and `order` are used by the query that
      selects the rows, which is not modelled). */
  datatype Project = Project(
    title: string, description: Option<string>, technologies: string,
    githubUrl: Option<string>, liveUrl: Option<string>, imageUrl: Option<string>,
    featured: bool, order: int)

  /** The dictionary a handler builds per project; `stars` is absent for
      database projects. */
  datatype Card = Card(
    title: string, description: Option<string>, technologies: string,
    githubUrl: Option<string>, liveUrl: Option<string>, imageUrl: Option<string>,
    featured: bool, isGithub: bool, stars: Option<int>)

  function RepoCard(r: GitHub.Repo): Card {
    Card(r.name, Some(r.description), r.language, Some(r.githubUrl), None,
         r.imageUrl, false, true, Some(r.stars))
  }

  function ProjectCard(p: Project): Card {
    Card(p.title, p.description, p.technologies, p.githubUrl, p.liveUrl,
         p.imageUrl, true, false, None)
  }

  function RepoCards(repos: seq<GitHub.Repo>): seq<Card> {
    seq(|repos|, i requires 0 <= i < |repos| => RepoCard(repos[i]))
  }

  function ProjectCards(projects: seq<Project>): seq<Card> {
    seq(|projects|, i requires 0 <= i < |projects| => ProjectCard(projects[i]))
  }

  /** `[t.strip() for t in str(technologies).split(',')]`. */
  function TechTokens(technologies: string): seq<string> {
    var parts := Split(technologies, ',');
    seq(|parts|, i requires 0 <= i < |parts| => PyStrip(parts[i]))
  }

  /** The search test: the query occurs in the lower-cased title or in the
      lower-cased description, a missing description counting as `''`. */
  predicate MatchesSearch(c: Card, query: string) {
    Contains(Lower(c.title), query)
    || Contains(Lower(if c.description.Some? then c.description.value else ""), query)
  }

  /** The technology test: `tech` is, exactly, one of the stripped tokens. */
  predicate MatchesTech(c: Card, tech: string) {
    tech in TechTokens(c.technologies)
  }

  /** A card survives both tests; an empty query or technology tests nothing. */
  predicate Passes(c: Card, query: string, tech: string) {
    (query == "" || MatchesSearch(c, query)) && (tech == "" || MatchesTech(c, tech))
  }

  function SearchKeep(query: string): Card -> bool {
    (c: Card) => MatchesSearch(c, query)
  }

  function TechKeep(tech: string): Card -> bool {
    (c: Card) => MatchesTech(c, tech)
  }

  /** The loop of `/api/proyectos-filtrado` that appends to `filtered` every
      card one of whose tokens is `tech`. */
  method FilterByTech(cards: seq<Card>, tech: string) returns (filtered: seq<Card>)
    ensures filtered == Filter(cards, TechKeep(tech))
  {
    filtered := [];
    for i := 0 to |cards|
      invariant filtered == Filter(cards[..i], TechKeep(tech))
    {
      FilterSnoc(cards[..i], cards[i], TechKeep(tech));
      assert cards[..i + 1] == cards[..i] + [cards[i]];
      var techs := TechTokens(cards[i].technologies);
      if tech in techs {
        filtered := filtered + [cards[i]];
      }
    }
    assert cards[..|cards|] == cards;
  }

  function PassKeep(query: string, tech: string): Card -> bool {
    (c: Card) => Passes(c, query, tech)
  }

  /** GET `/api/proyectos-filtrado?search=&tech=`: the repositories' cards,
      then the featured projects' cards, narrowed by the search (when the
      lower-cased, stripped query is non-empty) and then by the technology
      (when the stripped one is non-empty). The two passes are one filter by
      both tests: the result keeps the order and the repetitions of the
      candidates, holds every candidate that passes and nothing else. */
  method FilteredProjects(repos: seq<GitHub.Repo>, featured: seq<Project>, search: string, tech: string)
    returns (result: seq<Card>)
    ensures var all := RepoCards(repos) + ProjectCards(featured);
      var query, t := PyStrip(Lower(search)), PyStrip(tech);
      && result == Filter(all, PassKeep(query, t))
      && Subsequence(result, all)
      && (forall c :: c in result ==> Passes(c, query, t))
      && (forall c :: c in all && Passes(c, query, t) ==> c in result)
      && (query == "" && t == "" ==> result == all)
  {
    var query := PyStrip(Lower(search));
    var technology := PyStrip(tech);
    var all := RepoCards(repos) + ProjectCards(featured);
    var projects := all;
    if query != "" {
      projects := Filter(projects, SearchKeep(query));
    }
    var searched := projects;
    if technology != "" {
      projects := FilterByTech(projects, technology);
    }
    result := projects;
    ghost var pass := PassKeep(query, technology);
    if query == "" && technology == "" {
      FilterKeepsAll(all, pass);
    } else if technology == "" {
      FilterCongruent(all, SearchKeep(query), pass);
    } else if query == "" {
      FilterCongruent(all, TechKeep(technology), pass);
    } else {
      FilterFilter(all, SearchKeep(query), TechKeep(technology), pass);
    }
    FilterIsSubsequence(all, pass);
  }

  // ----- the technology list of the projects page -----

  predicate StrictlySorted(xs: seq<string>) {
    forall i, j :: 0 <= i < j < |xs| ==> Below(xs[i], xs[j])
  }

  /** Strictly sorted lists hold no string twice. */
  lemma StrictlySortedDistinct(xs: seq<string>)
    requires StrictlySorted(xs)
    ensures forall i, j :: 0 <= i < j < |xs| ==> xs[i] != xs[j]
  {
    forall i, j | 0 <= i < j < |xs| ensures xs[i] != xs[j] {
      BelowIrreflexive(xs[i]);
    }
  }

  function InsertSorted(xs: seq<string>, x: string): seq<string> {
    if xs == [] then [x]
    else if Below(x, xs[0]) then [x] + xs
    else [xs[0]] + InsertSorted(xs[1..], x)
  }

  lemma {:induction false} InsertSortedKeepsOrder(xs: seq<string>, x: string)
    requires StrictlySorted(xs) && x !in xs
    ensures StrictlySorted(InsertSorted(xs, x))
    ensures forall y :: y in InsertSorted(xs, x) <==> y in xs || y == x
  {
    if xs == [] {
    } else if Below(x, xs[0]) {
      var r := [x] + xs;
      forall i, j | 0 <= i < j < |r| ensures Below(r[i], r[j]) {
        if i == 0 && j > 1 {
          BelowTransitive(x, xs[0], xs[j - 1]);
        }
      }
    } else {
      BelowTotal(x, xs[0]);
      var rest := InsertSorted(xs[1..], x);
      InsertSortedKeepsOrder(xs[1..], x);
      var r := [xs[0]] + rest;
      forall j | 0 <= j < |rest| ensures Below(xs[0], rest[j]) {
        assert rest[j] in rest;
        if rest[j] != x {
          var k :| 0 <= k < |xs[1..]| && xs[1..][k] == rest[j];
          assert xs[k + 1] == rest[j];
        }
      }
      forall i, j | 0 <= i < j < |r| ensures Below(r[i], r[j]) {
        if i > 0 {
          assert r[i] == rest[i - 1] && r[j] == rest[j - 1];
        }
      }
      assert xs == [xs[0]] + xs[1..];
    }
  }

  /** `sorted(list(s))` for a set of strings. */
  method SortedList(items: set<string>) returns (xs: seq<string>)
    ensures StrictlySorted(xs)
    ensures forall t :: t in xs <==> t in items
  {
    xs := [];
    var rest := items;
    while rest != {}
      invariant rest <= items
      invariant StrictlySorted(xs)
      invariant forall t :: t in xs <==> t in items && t !in rest
      decreases rest
    {
      var x :| x in rest;
      InsertSortedKeepsOrder(xs, x);
      xs := InsertSorted(xs, x);
      rest := rest - {x};
    }
  }

  /** The technologies one card contributes: its tokens, if its
      `technologies` is not empty. */
  function CardTechs(c: Card): set<string> {
    if c.technologies != "" then set t | t in TechTokens(c.technologies) else {}
  }

  /** The `all_techs` set after the loop has seen `cards`. */
  function TechSet(cards: seq<Card>): set<string> {
    Union(cards, CardTechs)
  }

  lemma TechSetMembers(cards: seq<Card>, t: string)
    ensures t in TechSet(cards) <==> exists c :: c in cards && t in CardTechs(c)
  {
    if t in TechSet(cards) {
      var c := UnionFrom(cards, CardTechs, t);
    }
    if c :| c in cards && t in CardTechs(c) {
      UnionHas(cards, CardTechs, c, t);
    }
  }

  /** The `technologies` list of `/proyectos`: sorted, without duplicates,
      and made of exactly the stripped tokens of the cards whose
      `technologies` is not empty. */
  method Technologies(cards: seq<Card>) returns (techs: seq<string>)
    ensures StrictlySorted(techs)
    ensures forall i, j :: 0 <= i < j < |techs| ==> techs[i] != techs[j]
    ensures forall t :: t in techs <==>
      exists c :: c in cards && c.technologies != "" && t in TechTokens(c.technologies)
  {
    var all: set<string> := {};
    for i := 0 to |cards|
      invariant all == TechSet(cards[..i])
    {
      assert cards[..i + 1][..i] == cards[..i];
      if cards[i].technologies != "" {
        var tokens := TechTokens(cards[i].technologies);
        all := all + set t | t in tokens;
      }
    }
    assert cards[..|cards|] == cards;
    techs := SortedList(all);
    StrictlySortedDistinct(techs);
    forall t ensures t in techs <==>
      exists c :: c in cards && c.technologies != "" && t in TechTokens(c.technologies)
    {
      TechSetMembers(cards, t);
    }
  }

  // ----- the language badges of the projects page -----

  /** One entry of `languages_list`; `get_language_color` is a parameter. */
  datatype Badge = Badge(name: string, color: string, share: GitHub.Share)

  predicate SortedByShare(xs: seq<(string, GitHub.Share)>) {
    forall i, j :: 0 <= i < j < |xs| ==> xs[i].1.bytes >= xs[j].1.bytes
  }

  /** Puts `x` after every entry with at least its share, so that entries
      with equal shares keep their order. */
  function InsertByShare(xs: seq<(string, GitHub.Share)>, x: (string, GitHub.Share))
    : seq<(string, GitHub.Share)>
  {
    if xs == [] then [x]
    else if xs[0].1.bytes < x.1.bytes then [x] + xs
    else [xs[0]] + InsertByShare(xs[1..], x)
  }

  lemma {:induction false} InsertByShareIsPermutation(xs: seq<(string, GitHub.Share)>, x: (string, GitHub.Share))
    ensures multiset(InsertByShare(xs, x)) == multiset(xs) + multiset{x}
  {
    if xs == [] {
    } else if xs[0].1.bytes < x.1.bytes {
      assert InsertByShare(xs, x) == [x] + xs;
    } else {
      var rest := InsertByShare(xs[1..], x);
      InsertByShareIsPermutation(xs[1..], x);
      assert InsertByShare(xs, x) == [xs[0]] + rest;
      assert multiset([xs[0]] + rest) == multiset{xs[0]} + multiset(rest);
      assert xs == [xs[0]] + xs[1..];
      assert multiset(xs) == multiset{xs[0]} + multiset(xs[1..]);
    }
  }

  /** Inserting keeps every share at most `bound` when `x` and all of `xs`
      are. */
  lemma {:induction false} InsertByShareBounded(xs: seq<(string, GitHub.Share)>, x: (string, GitHub.Share), bound: int)
    requires forall i :: 0 <= i < |xs| ==> xs[i].1.bytes <= bound
    requires x.1.bytes <= bound
    ensures forall i :: 0 <= i < |InsertByShare(xs, x)| ==> InsertByShare(xs, x)[i].1.bytes <= bound
  {
    if xs != [] && xs[0].1.bytes >= x.1.bytes {
      InsertByShareBounded(xs[1..], x, bound);
    }
  }

  lemma {:induction false} InsertByShareKeepsOrder(xs: seq<(string, GitHub.Share)>, x: (string, GitHub.Share))
    requires SortedByShare(xs)
    ensures SortedByShare(InsertByShare(xs, x))
  {
    if xs != [] && xs[0].1.bytes >= x.1.bytes {
      var rest := InsertByShare(xs[1..], x);
      InsertByShareKeepsOrder(xs[1..], x);
      InsertByShareBounded(xs[1..], x, xs[0].1.bytes);
      var r := [xs[0]] + rest;
      forall i, j | 0 <= i < j < |r| ensures r[i].1.bytes >= r[j].1.bytes {
        assert r[j] == rest[j - 1];
        if i > 0 {
          assert r[i] == rest[i - 1];
        }
      }
    }
  }

  /** `sorted(languages.items(), key=share, reverse=True)`: a permutation of
      the entries in non-increasing share order. */
  method SortByShare(langs: seq<(string, GitHub.Share)>) returns (sorted: seq<(string, GitHub.Share)>)
    ensures SortedByShare(sorted)
    ensures multiset(sorted) == multiset(langs)
  {
    sorted := [];
    for i := 0 to |langs|
      invariant SortedByShare(sorted)
      invariant multiset(sorted) == multiset(langs[..i])
    {
      InsertByShareKeepsOrder(sorted, langs[i]);
      InsertByShareIsPermutation(sorted, langs[i]);
      sorted := InsertByShare(sorted, langs[i]);
      assert langs[..i + 1] == langs[..i] + [langs[i]];
    }
    assert langs[..|langs|] == langs;
  }

  /** The (language, share) entries the badges show. */
  function BadgeEntries(badges: seq<Badge>): seq<(string, GitHub.Share)> {
    seq(|badges|, i requires 0 <= i < |badges| => (badges[i].name, badges[i].share))
  }

  /** `badges` is the `languages_list` of a repository with languages
      `langs`: its entries are those languages, largest share first, each
      with its own colour. */
  predicate ListsBadges(badges: seq<Badge>, langs: seq<(string, GitHub.Share)>, colour: string -> string) {
    && |badges| == |langs|
    && (forall i, j :: 0 <= i < j < |badges| ==> badges[i].share.bytes >= badges[j].share.bytes)
    && multiset(BadgeEntries(badges)) == multiset(langs)
    && (forall b :: b in badges ==> b.color == colour(b.name))
  }

  /** The `languages_list` of one repository on `/proyectos`: its languages
      with their colours, largest share first. */
  method LanguageBadges(langs: seq<(string, GitHub.Share)>, colour: string -> string)
    returns (badges: seq<Badge>)
    ensures |badges| == |langs|
    ensures forall i, j :: 0 <= i < j < |badges| ==> badges[i].share.bytes >= badges[j].share.bytes
    ensures multiset(BadgeEntries(badges)) == multiset(langs)
    ensures forall b :: b in badges ==> b.color == colour(b.name)
  {
    badges := [];
    if langs == [] {
      return;
    }
    var sorted := SortByShare(langs);
    for i := 0 to |sorted|
      invariant |badges| == i
      invariant forall k :: 0 <= k < i ==>
        badges[k] == Badge(sorted[k].0, colour(sorted[k].0), sorted[k].1)
    {
      badges := badges + [Badge(sorted[i].0, colour(sorted[i].0), sorted[i].1)];
    }
    assert BadgeEntries(badges) == sorted;
    assert |multiset(sorted)| == |langs|;
  }

  /** GET `/proyectos`: one card per repository, in order, the repository's
      language badges, and the technology list of the filter. */
  method ProjectsPage(repos: seq<GitHub.Repo>, colour: string -> string)
    returns (cards: seq<Card>, languages: seq<seq<Badge>>, technologies: seq<string>)
    ensures cards == RepoCards(repos)
    ensures |languages| == |repos|
    ensures forall i :: 0 <= i < |repos| ==> ListsBadges(languages[i], repos[i].languages, colour)
    ensures StrictlySorted(technologies)
    ensures forall t :: t in technologies <==>
      exists c :: c in cards && c.technologies != "" && t in TechTokens(c.technologies)
  {
    cards := [];
    languages := [];
    for i := 0 to |repos|
      invariant cards == RepoCards(repos[..i])
      invariant |languages| == i
      invariant forall k :: 0 <= k < i ==> ListsBadges(languages[k], repos[k].languages, colour)
    {
      var badges := LanguageBadges(repos[i].languages, colour);
      assert ListsBadges(badges, repos[i].languages, colour);
      languages := languages + [badges];
      cards := cards + [RepoCard(repos[i])];
    }
    assert repos[..|repos|] == repos;
    technologies := Technologies(cards);
  }

  // ----- the skills page -----

  datatype Skill = Skill(category: string, name: string, proficiency: int, order: int)

  function InCategory(category: string): Skill -> bool {
    (s: Skill) => s.category == category
  }

  function Categories(skills: seq<Skill>): set<string> {
    set s | s in skills :: s.category
  }

  /** `groups` has one group per category of `skills`, each holding that
      category's skills in their order. */
  predicate Grouped(groups: map<string, seq<Skill>>, skills: seq<Skill>) {
    && groups.Keys == Categories(skills)
    && forall c :: c in groups ==> groups[c] == Filter(skills, InCategory(c))
  }

  /** The categories seen grow by the category of the skill appended. */
  lemma CategoriesSnoc(seen: seq<Skill>, s: Skill)
    ensures Categories(seen + [s]) == Categories(seen) + {s.category}
  {
    forall k | k in Categories(seen + [s]) ensures k in Categories(seen) + {s.category} {
      var t :| t in seen + [s] && t.category == k;
      if t != s {
        assert t in seen;
      }
    }
    forall k | k in Categories(seen) ensures k in Categories(seen + [s]) {
      var t :| t in seen && t.category == k;
      assert t in seen + [s];
    }
    assert s in seen + [s];
  }

  /** One step of the grouping loop: the skill is appended to its category's
      group, created empty when new, and then every group is still its
      category's filter of the skills seen. */
  lemma GroupsSnoc(before: map<string, seq<Skill>>, seen: seq<Skill>, s: Skill,
                   after: map<string, seq<Skill>>)
    requires Grouped(before, seen)
    requires after == before[s.category :=
      (if s.category in before then before[s.category] else []) + [s]]
    ensures Grouped(after, seen + [s])
  {
    CategoriesSnoc(seen, s);
    if s.category !in before {
      forall t | t in seen ensures !InCategory(s.category)(t) {
        assert t.category in Categories(seen);
      }
      FilterKeepsNone(seen, InCategory(s.category));
    }
    forall c | c in after ensures after[c] == Filter(seen + [s], InCategory(c)) {
      FilterSnoc(seen, s, InCategory(c));
      if c != s.category {
        assert c in before && after[c] == before[c];
        assert !InCategory(c)(s);
      }
    }
  }

  /** The loop of `/sobre-mi` that fills `skills_by_category`: one group per
      category that occurs, each holding that category's skills in query
      order. */
  method GroupSkills(skills: seq<Skill>) returns (groups: map<string, seq<Skill>>)
    ensures groups.Keys == Categories(skills)
    ensures forall c :: c in groups ==> groups[c] == Filter(skills, InCategory(c))
  {
    groups := map[];
    for i := 0 to |skills|
      invariant Grouped(groups, skills[..i])
    {
      var s := skills[i];
      ghost var before := groups;
      assert skills[..i + 1] == skills[..i] + [s];
      if s.category !in groups {
        groups := groups[s.category := []];
      }
      groups := groups[s.category := groups[s.category] + [s]];
      GroupsSnoc(before, skills[..i], s, groups);
    }
    assert skills[..|skills|] == skills;
  }

  /** Every skill lands in the group of its own category and in no other. */
  lemma SkillInOneGroup(skills: seq<Skill>, s: Skill, c: string)
    requires s in skills
    ensures s in Filter(skills, InCategory(c)) <==> c == s.category
  {
  }

  /** The skills are in `order` order within each category, as the query's
      (category, order) ordering leaves them. */
  predicate OrderedWithinCategory(skills: seq<Skill>) {
    forall i, j :: 0 <= i < j < |skills| && skills[i].category == skills[j].category ==>
      skills[i].order <= skills[j].order
  }

  predicate OrderedByOrder(skills: seq<Skill>) {
    forall i, j :: 0 <= i < j < |skills| ==> skills[i].order <= skills[j].order
  }

  /** With the skills in the query's order, each group is in `order` order. */
  lemma {:induction false} GroupInOrder(skills: seq<Skill>, c: string)
    requires OrderedWithinCategory(skills)
    ensures OrderedByOrder(Filter(skills, InCategory(c)))
  {
    if skills != [] {
      var init, last := skills[..|skills| - 1], skills[|skills| - 1];
      assert OrderedWithinCategory(init);
      GroupInOrder(init, c);
      var g0 := Filter(init, InCategory(c));
      var g := Filter(skills, InCategory(c));
      if last.category == c {
        assert g == g0 + [last];
        forall i | 0 <= i < |g0| ensures g0[i].order <= last.order {
          assert g0[i] in init;
          var k :| 0 <= k < |init| && init[k] == g0[i];
          assert skills[k] == g0[i];
        }
        forall i, j | 0 <= i < j < |g| ensures g[i].order <= g[j].order {
          assert g[i] == g0[i];
          if j < |g0| {
            assert g[j] == g0[j];
          }
        }
      } else {
        assert g == g0;
      }
    }
  }
}
