/** Image references and the cookbook an image selects. */
module ImageMatch {
  import opened Basics
  import opened Text

  datatype Reference = Reference(repository: string, qualifier: string)

  /** One past the last c, or zero. */
  function PastLast(s: string, c: char): (i: nat)
    ensures i <= |s| && (forall j :: i <= j < |s| ==> s[j] != c) && (i > 0 ==> s[i - 1] == c)
  {
    if s == "" then 0 else if s[|s| - 1] == c then |s| else PastLast(s[..|s| - 1], c)
  }

  /** The digest is cut at the first @. */
  function CutDigest(s: string): Reference {
    var i := IndexOf(s, '@');
    Reference(s[..i], s[i..])
  }

  /** The tag is cut at the last colon, if no slash follows that colon. */
  function CutTag(s: string): Reference {
    if PastLast(s, ':') > PastLast(s, '/') then Reference(s[..PastLast(s, ':') - 1], s[PastLast(s, ':') - 1..])
    else Reference(s, "")
  }

  function Cut(s: string): Reference {
    var d := CutDigest(s);
    var t := CutTag(d.repository);
    Reference(t.repository, t.qualifier + d.qualifier)
  }

  predicate IsDomain(s: string) {
    '.' in s || ':' in s || s == "localhost"
  }

  const DOCKER_IO := "docker.io"

  function CanonicalDomain(d: string): string {
    if d == "index.docker.io" || d == "registry-1.docker.io" then DOCKER_IO else d
  }

  function JoinDomain(d: string, path: string): string {
    d + "/" + if d == DOCKER_IO && '/' !in path then "library/" + path else path
  }

  /** An explicit registry host, or Docker Hub; official images live under library. */
  function Canonical(repository: string): string {
    var i := IndexOf(repository, '/');
    if i < |repository| && IsDomain(repository[..i])
    then JoinDomain(CanonicalDomain(repository[..i]), repository[i + 1..])
    else JoinDomain(DOCKER_IO, repository)
  }

  function SplitImageReference(image: string): Reference {
    var c := Cut(TrimSpace(image));
    Reference(Canonical(c.repository), c.qualifier)
  }

  // ---------- canonical form ----------

  /** No colon after the last slash. */
  predicate Untagged(s: string) {
    PastLast(s, ':') <= PastLast(s, '/')
  }

  /** A tag: a colon, then neither colon, slash nor @. */
  predicate IsTag(t: string) {
    t == "" || (t[0] == ':' && ':' !in t[1..] && '/' !in t && '@' !in t)
  }

  lemma PastLastIs(s: string, c: char, i: nat)
    requires 0 < i <= |s| && s[i - 1] == c && forall j :: i <= j < |s| ==> s[j] != c
    ensures PastLast(s, c) == i
  {
  }

  /** A repository, its tag and its digest, as a cut leaves them. */
  predicate CutParts(r: string, t: string, d: string) {
    '@' !in r && IsTag(t) && (t == "" ==> Untagged(r)) && (d != "" ==> d[0] == '@')
  }

  lemma DigestShape(s: string)
    ensures var d := CutDigest(s);
            '@' !in d.repository && (d.qualifier != "" ==> d.qualifier[0] == '@') && s == d.repository + d.qualifier
  {
    var d := CutDigest(s);
    assert forall j :: 0 <= j < |d.repository| ==> d.repository[j] == s[j];
  }

  lemma TagShape(s: string)
    requires '@' !in s
    ensures var t := CutTag(s);
            '@' !in t.repository && IsTag(t.qualifier) && (t.qualifier == "" ==> Untagged(t.repository)) && s == t.repository + t.qualifier
  {
    var t := CutTag(s);
    if t.qualifier != "" {
      var i := PastLast(s, ':') - 1;
      assert t.qualifier[0] == ':';
      assert forall j :: 0 <= j < |t.qualifier| ==> t.qualifier[j] == s[i + j];
    }
  }

  /** What a cut leaves: a tag and digest that would be cut again at the same places. */
  lemma CutShape(s: string) returns (r: string, t: string, d: string)
    ensures CutParts(r, t, d) && s == r + (t + d) && Cut(s) == Reference(r, t + d)
  {
    DigestShape(s);
    var digest := CutDigest(s);
    TagShape(digest.repository);
    var tag := CutTag(digest.repository);
    r, t, d := tag.repository, tag.qualifier, digest.qualifier;
    assert s == (r + t) + d;
  }

  lemma CutTagAgain(r: string, t: string)
    requires IsTag(t) && (t == "" ==> Untagged(r))
    ensures CutTag(r + t) == Reference(r, t)
  {
    var s := r + t;
    if t == "" {
      assert s == r;
    } else {
      assert s[|r|] == ':';
      assert forall j :: |r| < j < |s| ==> s[j] == t[j - |r|] && s[j] == t[1..][j - |r| - 1];
      PastLastIs(s, ':', |r| + 1);
      assert PastLast(s, '/') <= |r|;
      assert s[..|r|] == r && s[|r|..] == t;
    }
  }

  lemma CutDigestAgain(r: string, q: string)
    requires '@' !in r && (q != "" ==> q[0] == '@')
    ensures CutDigest(r + q) == Reference(r, q)
  {
    var s := r + q;
    assert IndexOf(s, '@') == |r|;
    assert s[..|r|] == r && s[|r|..] == q;
  }

  lemma PastLastJoin(a: string, b: string, c: char)
    ensures var n := PastLast(a + "/" + b, c);
            if PastLast(b, c) > 0 then n == |a| + 1 + PastLast(b, c)
            else if c == '/' then n == |a| + 1
            else n <= |a|
  {
    var s, k := a + "/" + b, |a| + 1;
    assert forall j :: 0 <= j < |b| ==> s[k + j] == b[j];
    assert s[|a|] == '/';
    if PastLast(b, c) > 0 {
      PastLastIs(s, c, k + PastLast(b, c));
    } else if c == '/' {
      PastLastIs(s, c, k);
    }
  }

  /** Whether a reference is tagged is decided behind any of its slashes. */
  lemma UntaggedTail(a: string, b: string)
    ensures Untagged(a + "/" + b) <==> Untagged(b)
  {
    PastLastJoin(a, b, ':');
    PastLastJoin(a, b, '/');
  }

  lemma UntaggedJoin(d: string, p: string)
    requires Untagged(p)
    ensures Untagged(JoinDomain(d, p))
  {
    UntaggedTail("library", p);
    assert "library/" + p == "library" + "/" + p;
    UntaggedTail(d, p);
    UntaggedTail(d, "library/" + p);
  }

  predicate SettledDomain(d: string) {
    '/' !in d && IsDomain(d) && CanonicalDomain(d) == d
  }

  /** A settled domain is found again and nothing more is added. */
  lemma JoinedIsCanonical(d: string, p: string)
    requires SettledDomain(d)
    ensures Canonical(JoinDomain(d, p)) == JoinDomain(d, p)
  {
    var q := if d == DOCKER_IO && '/' !in p then "library/" + p else p;
    var s := d + "/" + q;
    assert s == JoinDomain(d, p) && s[|d|] == '/';
    assert IndexOf(s, '/') == |d|;
    assert s[..|d|] == d && s[|d| + 1..] == q;
    if d == DOCKER_IO && '/' !in p {
      assert q[7] == '/';
    }
  }

  lemma HubIsSettled()
    ensures SettledDomain(DOCKER_IO)
  {
    assert DOCKER_IO[6] == '.';
  }

  /** The canonical form is a settled domain and a path that is the reference itself or what follows a slash of it. */
  lemma CanonicalParts(r: string) returns (d: string, p: string)
    ensures SettledDomain(d) && Canonical(r) == JoinDomain(d, p)
    ensures p == r || exists head :: r == head + "/" + p
    ensures d == DOCKER_IO || (d != "" && d <= r)
  {
    HubIsSettled();
    var i := IndexOf(r, '/');
    if i < |r| && IsDomain(r[..i]) {
      d, p := CanonicalDomain(r[..i]), r[i + 1..];
      assert r == r[..i] + "/" + p;
      assert forall j :: 0 <= j < i ==> r[..i][j] == r[j];
      if r[..i] == "" {
        assert false;
      }
    } else {
      d, p := DOCKER_IO, r;
    }
  }

  lemma TailKeeps(r: string, p: string)
    requires '@' !in r
    requires p == r || exists head :: r == head + "/" + p
    ensures '@' !in p && (Untagged(r) ==> Untagged(p)) && (p != "" ==> r != "" && p[|p| - 1] == r[|r| - 1])
  {
    if p != r {
      var head :| r == head + "/" + p;
      UntaggedTail(head, p);
      assert forall j :: 0 <= j < |p| ==> p[j] == r[|head| + 1 + j];
    }
  }

  lemma JoinAtFree(d: string, p: string)
    requires '@' !in d && '@' !in p
    ensures '@' !in JoinDomain(d, p)
  {
  }

  lemma JoinEnds(d: string, p: string)
    requires d != ""
    ensures var c := JoinDomain(d, p); c != "" && c[0] == d[0] && c[|c| - 1] == if p == "" then '/' else p[|p| - 1]
  {
    assert p == "" ==> "library/" + p == "library/";
  }

  lemma CutAgain(c: string, t: string, d: string)
    requires '@' !in c && IsTag(t) && (t == "" ==> Untagged(c)) && (d != "" ==> d[0] == '@')
    ensures Cut(c + (t + d)) == Reference(c, t + d)
  {
    assert c + (t + d) == (c + t) + d;
    CutDigestAgain(c + t, d);
    CutTagAgain(c, t);
  }

  predicate Trimmed(s: string) {
    s != "" ==> !IsSpace(s[0]) && !IsSpace(s[|s| - 1])
  }

  /** Replacing a repository keeps the reference trimmed when both ends stay printable. */
  lemma TrimmedJoin(r: string, q: string, c: string)
    requires Trimmed(r + q) && c != ""
    requires !IsSpace(c[0]) || (r != "" && c[0] == r[0])
    requires !IsSpace(c[|c| - 1]) || (r != "" && c[|c| - 1] == r[|r| - 1])
    ensures Trimmed(c + q) && TrimSpace(c + q) == c + q
  {
    var s, u := r + q, c + q;
    assert r != "" ==> s[0] == r[0];
    assert u[0] == c[0];
    if q == "" {
      assert s == r && u == c;
    } else {
      assert s[|s| - 1] == q[|q| - 1] == u[|u| - 1];
    }
  }

  /** c may take the place of repository r in front of any qualifier. */
  predicate Stands(r: string, c: string) {
    && c != "" && '@' !in c && (Untagged(r) ==> Untagged(c))
    && (!IsSpace(c[0]) || (r != "" && c[0] == r[0]))
    && (!IsSpace(c[|c| - 1]) || (r != "" && c[|c| - 1] == r[|r| - 1]))
  }

  lemma StandsAgain(r: string, t: string, d: string, c: string)
    requires CutParts(r, t, d) && Trimmed(r + (t + d)) && Stands(r, c)
    ensures Cut(c + (t + d)) == Reference(c, t + d) && TrimSpace(c + (t + d)) == c + (t + d)
  {
    CutAgain(c, t, d);
    TrimmedJoin(r, t + d, c);
  }

  lemma JoinStands(r: string, domain: string, p: string)
    requires '@' !in r
    requires p == r || exists head :: r == head + "/" + p
    requires domain == DOCKER_IO || (domain != "" && domain <= r)
    ensures Stands(r, JoinDomain(domain, p))
  {
    TailKeeps(r, p);
    DomainKeeps(r, domain);
    if Untagged(r) {
      UntaggedJoin(domain, p);
    }
    JoinAtFree(domain, p);
    JoinEnds(domain, p);
  }

  lemma DomainKeeps(r: string, domain: string)
    requires '@' !in r
    requires domain == DOCKER_IO || (domain != "" && domain <= r)
    ensures '@' !in domain && domain != "" && (!IsSpace(domain[0]) || (r != "" && domain[0] == r[0]))
  {
  }

  /** The canonical repository is its own canonical form and takes the place of the repository it was made from. */
  lemma CanonicalStands(r: string)
    requires '@' !in r
    ensures Canonical(Canonical(r)) == Canonical(r) && Stands(r, Canonical(r))
  {
    var domain, p := CanonicalParts(r);
    JoinedIsCanonical(domain, p);
    JoinStands(r, domain, p);
  }

  lemma SplitFrom(c: string, q: string)
    requires TrimSpace(c + q) == c + q && Cut(c + q) == Reference(c, q) && Canonical(c) == c
    ensures SplitImageReference(c + q) == Reference(c, q)
  {
  }

  lemma SplitParts(image: string) returns (r: string, t: string, d: string)
    ensures CutParts(r, t, d) && Trimmed(r + (t + d))
    ensures SplitImageReference(image) == Reference(Canonical(r), t + d)
  {
    r, t, d := CutShape(TrimSpace(image));
  }

  /** Splitting what a split returned changes nothing: every reference has one canonical form. */
  lemma SplitIsCanonical(image: string)
    ensures var r := SplitImageReference(image);
            SplitImageReference(r.repository + r.qualifier) == r
  {
    var r, t, d := SplitParts(image);
    CanonicalStands(r);
    var c := Canonical(r);
    StandsAgain(r, t, d, c);
    SplitFrom(c, t + d);
  }

  /** Split at the parts it was written from: repository, tag and digest are told apart whatever their text. */
  lemma SplitWritten(r: string, t: string, d: string)
    requires CutParts(r, t, d) && Trimmed(r + (t + d))
    ensures SplitImageReference(r + (t + d)) == Reference(Canonical(r), t + d)
  {
    CutAgain(r, t, d);
  }

  /** A name of one component: not a registry host, so it names an official image on Docker Hub. */
  predicate IsShortName(n: string) {
    '/' !in n && '@' !in n && ':' !in n
  }

  lemma CanonicalOf(domain: string, path: string)
    requires '/' !in domain && IsDomain(domain)
    ensures Canonical(domain + "/" + path) == JoinDomain(CanonicalDomain(domain), path)
  {
    var s := domain + "/" + path;
    assert s[|domain|] == '/';
    assert IndexOf(s, '/') == |domain|;
    assert s[..|domain|] == domain && s[|domain| + 1..] == path;
  }

  predicate IsHubHost(h: string) {
    h == "docker.io" || h == "index.docker.io" || h == "registry-1.docker.io"
  }

  lemma HubHost(h: string)
    requires IsHubHost(h)
    ensures '/' !in h && '@' !in h && IsDomain(h) && CanonicalDomain(h) == DOCKER_IO
  {
    assert h == "docker.io" ==> h[6] == '.';
    assert h == "index.docker.io" ==> h[5] == '.';
    assert h == "registry-1.docker.io" ==> h[10] == '.';
  }

  lemma OfficialPath(n: string)
    requires IsShortName(n)
    ensures JoinDomain(DOCKER_IO, n) == JoinDomain(DOCKER_IO, "library/" + n) == Canonical(n)
  {
    assert ("library/" + n)[7] == '/';
    assert IndexOf(n, '/') == |n|;
  }

  /** An official image has one canonical repository under every host spelling, with or without library. */
  lemma HubRepositoriesAgree(h: string, n: string)
    requires IsHubHost(h) && IsShortName(n)
    ensures Canonical(h + "/" + n) == Canonical(h + "/" + ("library/" + n)) == Canonical(n) == JoinDomain(DOCKER_IO, n)
  {
    HubHost(h);
    CanonicalOf(h, n);
    CanonicalOf(h, "library/" + n);
    OfficialPath(n);
  }

  // ---------- choosing a cookbook ----------

  /** An explicit tag or digest that is the image's own, :latest standing for none. */
  predicate Qualified(c: Reference, image: Reference) {
    c.repository == image.repository && c.qualifier != "" &&
    c.qualifier == if image.qualifier == "" then ":latest" else image.qualifier
  }

  predicate Bare(c: Reference, image: Reference) {
    c == Reference(image.repository, "")
  }

  function SplitAll(split: string -> Reference, names: seq<string>): (r: seq<Reference>)
    ensures |r| == |names| && forall i :: 0 <= i < |names| ==> r[i] == split(names[i])
  {
    seq(|names|, i requires 0 <= i < |names| => split(names[i]))
  }

  function Score(names: seq<Reference>, image: Reference): nat {
    if exists c :: c in names && Qualified(c, image) then 2
    else if exists c :: c in names && Bare(c, image) then 1
    else 0
  }

  lemma ScoreGrows(names: seq<Reference>, c: Reference, image: Reference)
    ensures Score(names + [c], image) ==
            if Qualified(c, image) then 2 else if Bare(c, image) && Score(names, image) == 0 then 1 else Score(names, image)
  {
    var more := names + [c];
    assert c in more && forall x :: x in more <==> x in names || x == c;
  }

  datatype Choice = Chosen(index: nat) | Ambiguous | Unmatched

  /** The unique cookbook of greatest positive score, and otherwise none. */
  predicate IsChoice(scores: seq<nat>, c: Choice) {
    match c
    case Chosen(k) => k < |scores| && scores[k] > 0 && forall i :: 0 <= i < |scores| && i != k ==> scores[i] < scores[k]
    case Ambiguous => exists i, j :: 0 <= i < j < |scores| && scores[i] == scores[j] && scores[i] > 0 && AtMost(scores, scores[i])
    case Unmatched => AtMost(scores, 0)
  }

  predicate AtMost(scores: seq<nat>, n: nat) {
    forall i :: 0 <= i < |scores| ==> scores[i] <= n
  }

  function Scores(split: string -> Reference, books: seq<seq<string>>, image: Reference): (r: seq<nat>)
    ensures |r| == |books| && forall i :: 0 <= i < |books| ==> r[i] == Score(SplitAll(split, books[i]), image)
  {
    seq(|books|, i requires 0 <= i < |books| => Score(SplitAll(split, books[i]), image))
  }

  /** `books[i]` is the image names of the i-th cookbook, in whatever order the cookbooks are visited. */
  method CookbookFor(books: seq<seq<string>>, image: string) returns (c: Choice)
    ensures IsChoice(Scores(SplitImageReference, books, SplitImageReference(image)), c)
  {
    c := Choose(SplitImageReference, books, SplitImageReference(image));
  }

  method Choose(split: string -> Reference, books: seq<seq<string>>, image: Reference) returns (c: Choice)
    ensures IsChoice(Scores(split, books, image), c)
  {
    ghost var scores := Scores(split, books, image);
    var selected: Option<nat> := None;
    ghost var other := 0;
    var best, ambiguous := 0, false;
    for k := 0 to |books|
      invariant Leads(scores[..k], selected, best, ambiguous, other)
    {
      var score := ScoreOf(split, books[k], image);
      assert scores[..k + 1] == scores[..k] + [score];
      LeadsGrows(scores[..k], selected, best, ambiguous, other, score);
      if score > best {
        selected, best, ambiguous := Some(k), score, false;
      } else if score != 0 && score == best {
        ambiguous := true;
        other := k;
      }
    }
    assert scores[..|books|] == scores;
    if ambiguous {
      return Ambiguous;
    }
    if selected.None? {
      return Unmatched;
    }
    c := Chosen(selected.value);
  }

  /** What the loop variables say of the scores visited; `other` is a second cookbook as good as the selected one. */
  predicate Leads(scores: seq<nat>, selected: Option<nat>, best: nat, ambiguous: bool, other: nat) {
    && AtMost(scores, best)
    && (selected.None? <==> best == 0)
    && (selected.Some? ==> selected.value < |scores| && scores[selected.value] == best)
    && (ambiguous ==> selected.Some? && selected.value < other < |scores| && scores[other] == best)
    && (!ambiguous ==> forall i :: 0 <= i < |scores| && scores[i] == best && best > 0 ==> selected == Some(i))
  }

  lemma LeadsGrows(scores: seq<nat>, selected: Option<nat>, best: nat, ambiguous: bool, other: nat, score: nat)
    requires Leads(scores, selected, best, ambiguous, other)
    ensures var more := scores + [score];
            if score > best then Leads(more, Some(|scores|), score, false, other)
            else if score != 0 && score == best then Leads(more, selected, best, true, |scores|)
            else Leads(more, selected, best, ambiguous, other)
  {
  }

  method ScoreOf(split: string -> Reference, names: seq<string>, image: Reference) returns (score: nat)
    ensures score == Score(SplitAll(split, names), image)
  {
    score := 0;
    ghost var all := SplitAll(split, names);
    for i := 0 to |names|
      invariant score == Score(all[..i], image)
    {
      var c := split(names[i]);
      assert all[..i + 1] == all[..i] + [c];
      ScoreGrows(all[..i], c, image);
      score := RankWith(c, image, score);
    }
    assert all[..|names|] == all;
  }

  /** One candidate raises the score so far. */
  method RankWith(c: Reference, image: Reference, score: nat) returns (raised: nat)
    requires score <= 2
    ensures raised == if Qualified(c, image) then 2 else if Bare(c, image) && score == 0 then 1 else score
  {
    raised := score;
    if c.repository != image.repository {
      return;
    }
    if c.qualifier == "" && raised < 1 {
      raised := 1;
    }
    var effective := image.qualifier;
    if effective == "" {
      effective := ":latest";
    }
    if c.qualifier != "" && c.qualifier == effective {
      raised := 2;
    }
  }

  /** The verdict is a function of the scores alone. */
  lemma ChoiceUnique(scores: seq<nat>, a: Choice, b: Choice)
    requires IsChoice(scores, a) && IsChoice(scores, b)
    ensures a == b
  {
    if a.Ambiguous? || b.Ambiguous? {
      var i, j :| 0 <= i < j < |scores| && scores[i] == scores[j] && scores[i] > 0 && AtMost(scores, scores[i]);
    }
  }

  /** Visiting two cookbooks in the other order chooses the same cookbook, so no visiting order matters. */
  lemma SwapKeepsChoice(scores: seq<nat>, x: nat, y: nat, c: Choice)
    requires x < |scores| && y < |scores| && IsChoice(scores, c)
    ensures var swapped := scores[x := scores[y]][y := scores[x]];
            IsChoice(swapped, if c == Chosen(x) then Chosen(y) else if c == Chosen(y) then Chosen(x) else c)
  {
    match c
    case Chosen(k) => SwapKeepsBest(scores, x, y, k);
    case Unmatched =>
    case Ambiguous => SwapKeepsTie(scores, x, y);
  }

  lemma SwapKeepsBest(scores: seq<nat>, x: nat, y: nat, k: nat)
    requires x < |scores| && y < |scores| && IsChoice(scores, Chosen(k))
    ensures var swapped := scores[x := scores[y]][y := scores[x]];
            IsChoice(swapped, Chosen(if k == x then y else if k == y then x else k))
  {
  }

  lemma SwapKeepsTie(scores: seq<nat>, x: nat, y: nat)
    requires x < |scores| && y < |scores| && IsChoice(scores, Ambiguous)
    ensures IsChoice(scores[x := scores[y]][y := scores[x]], Ambiguous)
  {
    var swapped := scores[x := scores[y]][y := scores[x]];
    var i, j :| 0 <= i < j < |scores| && scores[i] == scores[j] && scores[i] > 0 && AtMost(scores, scores[i]);
    var p, q := if i == x then y else if i == y then x else i, if j == x then y else if j == y then x else j;
    assert swapped[p] == scores[i] && swapped[q] == scores[j];
    assert AtMost(swapped, scores[i]);
    Tied(swapped, p, q);
  }

  lemma Tied(scores: seq<nat>, i: nat, j: nat)
    requires i < |scores| && j < |scores| && i != j && scores[i] == scores[j] && scores[i] > 0 && AtMost(scores, scores[i])
    ensures IsChoice(scores, Ambiguous)
  {
    if j < i {
      assert scores[j] == scores[i] && AtMost(scores, scores[j]);
    }
  }
}
