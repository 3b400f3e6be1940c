/** Which cookbook an image gets, by the repositories and tags written. */
module ImageEffects {
  import opened Basics
  import opened Text
  import opened ImageMatch

  // ---------- repositories ----------

  predicate HasHost(h: string) {
    '.' in h || ':' in h || h == "localhost"
  }

  lemma FirstSlash(h: string, path: string)
    requires '/' !in h
    ensures var s := h + "/" + path; IndexOf(s, '/') == |h| && |h| < |s| && s[..|h|] == h && s[|h| + 1..] == path
  {
    var s := h + "/" + path;
    assert s[|h|] == '/';
    assert forall j :: 0 <= j < |h| ==> s[j] == h[j] && h[j] in h;
  }

  lemma OnHub(path: string)
    ensures JoinDomain(DOCKER_IO, path) == "docker.io/" + if '/' in path then path else "library/" + path
  {
    assert "docker.io" + "/" == "docker.io/";
  }

  /** A repository of one component, and one whose first component is no host, belong to Docker Hub. */
  lemma NoHostMeansHub(h: string, path: string)
    requires '/' !in h
    ensures Canonical(h) == "docker.io/" + ("library/" + h)
    ensures !HasHost(h) ==> Canonical(h + "/" + path) == "docker.io/" + (h + "/" + path)
  {
    FirstSlash(h, path);
    assert IndexOf(h, '/') == |h|;
    OnHub(h);
    OnHub(h + "/" + path);
    assert (h + "/" + path)[|h|] == '/';
  }

  /** A host is kept, but for the three of Docker Hub, which are one. */
  lemma HostIsKept(h: string, path: string)
    requires '/' !in h && HasHost(h)
    ensures !IsHubHost(h) ==> Canonical(h + "/" + path) == h + "/" + path
    ensures IsHubHost(h) ==> Canonical(h + "/" + path) == "docker.io/" + if '/' in path then path else "library/" + path
  {
    CanonicalOf(h, path);
    OnHub(path);
    if IsHubHost(h) {
      HubHost(h);
    }
  }

  // ---------- matches ----------

  /** The name is for this image: the same repository, and the tag or digest written, :latest where none is. */
  predicate Exact(name: string, image: string) {
    var n, i := SplitImageReference(name), SplitImageReference(image);
    && n.repository == i.repository
    && ((n.qualifier == i.qualifier && n.qualifier != "") || (i.qualifier == "" && n.qualifier == ":latest"))
  }

  /** The name is for every tag of the image's repository. */
  predicate Loose(name: string, image: string) {
    var n, i := SplitImageReference(name), SplitImageReference(image);
    n.repository == i.repository && n.qualifier == ""
  }

  predicate AnyExact(names: seq<string>, image: string) {
    exists i :: 0 <= i < |names| && Exact(names[i], image)
  }

  predicate AnyLoose(names: seq<string>, image: string) {
    exists i :: 0 <= i < |names| && Loose(names[i], image)
  }

  lemma TagThenDigest(t: string, d: string, u: string, e: string)
    requires IsTag(t) && IsTag(u) && (d != "" ==> d[0] == '@') && (e != "" ==> e[0] == '@') && t + d == u + e
    ensures t == u && d == e
  {
    CutDigestAgain(t, d);
    CutDigestAgain(u, e);
  }

  lemma QualifierWritten(t: string, d: string, t': string, d': string)
    requires IsTag(t) && IsTag(t') && (d != "" ==> d[0] == '@') && (d' != "" ==> d'[0] == '@')
    ensures t + d == t' + d' <==> t == t' && d == d'
    ensures t + d == ":latest" <==> t == ":latest" && d == ""
    ensures t + d == "" <==> t == "" && d == ""
  {
    if t + d == t' + d' {
      TagThenDigest(t, d, t', d');
    }
    assert ":latest" + "" == ":latest";
    if t + d == ":latest" {
      TagThenDigest(t, d, ":latest", "");
    }
  }

  /**
   As written: a name with a tag or digest is for the image with the same ones, and one that says :latest also for the
   image without; a name without is for all.
   */
  lemma ExactWritten(r: string, t: string, d: string, r': string, t': string, d': string)
    requires CutParts(r, t, d) && Trimmed(r + (t + d)) && CutParts(r', t', d') && Trimmed(r' + (t' + d'))
    ensures Exact(r + (t + d), r' + (t' + d')) <==>
            && Canonical(r) == Canonical(r')
            && ((t == t' && d == d' && (t != "" || d != "")) || (t' == "" && d' == "" && t == ":latest" && d == ""))
    ensures Loose(r + (t + d), r' + (t' + d')) <==> Canonical(r) == Canonical(r') && t == "" && d == ""
  {
    SplitWritten(r, t, d);
    SplitWritten(r', t', d');
    QualifierWritten(t, d, t', d');
    QualifierWritten(t', d', t', d');
  }

  // ---------- the verdict ----------

  lemma NameMeans(name: string, image: string)
    ensures Exact(name, image) <==> Qualified(SplitImageReference(name), SplitImageReference(image))
    ensures Loose(name, image) <==> Bare(SplitImageReference(name), SplitImageReference(image))
  {
  }

  lemma AnyExactMeans(names: seq<string>, image: string)
    ensures AnyExact(names, image) <==> exists c :: c in SplitAll(SplitImageReference, names) && Qualified(c, SplitImageReference(image))
  {
    var all := SplitAll(SplitImageReference, names);
    forall i | 0 <= i < |names| ensures all[i] in all && (Exact(names[i], image) <==> Qualified(all[i], SplitImageReference(image))) {
      NameMeans(names[i], image);
    }
  }

  lemma AnyLooseMeans(names: seq<string>, image: string)
    ensures AnyLoose(names, image) <==> exists c :: c in SplitAll(SplitImageReference, names) && Bare(c, SplitImageReference(image))
  {
    var all := SplitAll(SplitImageReference, names);
    forall i | 0 <= i < |names| ensures all[i] in all && (Loose(names[i], image) <==> Bare(all[i], SplitImageReference(image))) {
      NameMeans(names[i], image);
    }
  }

  lemma ScoreMeans(names: seq<string>, image: string)
    ensures Score(SplitAll(SplitImageReference, names), SplitImageReference(image)) ==
            if AnyExact(names, image) then 2 else if AnyLoose(names, image) then 1 else 0
  {
    AnyExactMeans(names, image);
    AnyLooseMeans(names, image);
  }

  function Exacts(books: seq<seq<string>>, image: string): (r: seq<bool>)
    ensures |r| == |books| && forall i :: 0 <= i < |books| ==> r[i] == AnyExact(books[i], image)
  {
    seq(|books|, i requires 0 <= i < |books| => AnyExact(books[i], image))
  }

  function Looses(books: seq<seq<string>>, image: string): (r: seq<bool>)
    ensures |r| == |books| && forall i :: 0 <= i < |books| ==> r[i] == AnyLoose(books[i], image)
  {
    seq(|books|, i requires 0 <= i < |books| => AnyLoose(books[i], image))
  }

  /** Two points for an exact name, one for a loose one. */
  predicate Ranked(exact: seq<bool>, loose: seq<bool>, scores: seq<nat>) {
    && |scores| == |exact| == |loose|
    && forall i :: 0 <= i < |scores| ==> scores[i] == if exact[i] then 2 else if loose[i] then 1 else 0
  }

  lemma ScoresMean(books: seq<seq<string>>, image: string)
    ensures Ranked(Exacts(books, image), Looses(books, image), Scores(SplitImageReference, books, SplitImageReference(image)))
  {
    forall i | 0 <= i < |books| ensures Score(SplitAll(SplitImageReference, books[i]), SplitImageReference(image)) ==
                                        if AnyExact(books[i], image) then 2 else if AnyLoose(books[i], image) then 1 else 0
    {
      ScoreMeans(books[i], image);
    }
  }

  predicate Only(marks: seq<bool>, k: nat) {
    k < |marks| && marks[k] && forall i :: 0 <= i < |marks| && i != k ==> !marks[i]
  }

  predicate NoneOf(marks: seq<bool>) {
    forall i :: 0 <= i < |marks| ==> !marks[i]
  }

  predicate TwoOf(marks: seq<bool>) {
    exists i, j :: 0 <= i < j < |marks| && marks[i] && marks[j]
  }

  lemma BestIsOnly(exact: seq<bool>, loose: seq<bool>, scores: seq<nat>, k: nat)
    requires Ranked(exact, loose, scores)
    ensures IsChoice(scores, Chosen(k)) <==> Only(exact, k) || (NoneOf(exact) && Only(loose, k))
  {
  }

  lemma NoneMeans(exact: seq<bool>, loose: seq<bool>, scores: seq<nat>)
    requires Ranked(exact, loose, scores)
    ensures IsChoice(scores, Unmatched) <==> NoneOf(exact) && NoneOf(loose)
  {
  }

  lemma TwoTie(exact: seq<bool>, loose: seq<bool>, scores: seq<nat>)
    requires Ranked(exact, loose, scores)
    ensures TwoOf(exact) || (NoneOf(exact) && TwoOf(loose)) ==> IsChoice(scores, Ambiguous)
  {
    if TwoOf(exact) {
      var i, j :| 0 <= i < j < |exact| && exact[i] && exact[j];
      assert AtMost(scores, 2);
      Tied(scores, i, j);
    } else if NoneOf(exact) && TwoOf(loose) {
      var i, j :| 0 <= i < j < |loose| && loose[i] && loose[j];
      assert AtMost(scores, 1);
      Tied(scores, i, j);
    }
  }

  lemma TieMeans(exact: seq<bool>, loose: seq<bool>, scores: seq<nat>)
    requires Ranked(exact, loose, scores)
    ensures IsChoice(scores, Ambiguous) <==> TwoOf(exact) || (NoneOf(exact) && TwoOf(loose))
  {
    TwoTie(exact, loose, scores);
    if IsChoice(scores, Ambiguous) {
      var i, j :| 0 <= i < j < |scores| && scores[i] == scores[j] && scores[i] > 0 && AtMost(scores, scores[i]);
      assert forall k :: 0 <= k < |scores| ==> scores[k] <= scores[i];
      assert exact[i] == exact[j] && (!exact[i] ==> loose[i] && loose[j]);
    }
  }

  /** The cookbook chosen is the only one with an exact name or, where none has one, the only one with a loose name. */
  lemma ChosenMeans(books: seq<seq<string>>, image: string, k: nat)
    ensures IsChoice(Scores(SplitImageReference, books, SplitImageReference(image)), Chosen(k)) <==>
            Only(Exacts(books, image), k) || (NoneOf(Exacts(books, image)) && Only(Looses(books, image), k))
  {
    ScoresMean(books, image);
    BestIsOnly(Exacts(books, image), Looses(books, image), Scores(SplitImageReference, books, SplitImageReference(image)), k);
  }

  /**
   The image is ambiguous exactly when two cookbooks have an exact name, or none has one and two have a loose name; it
   is unmatched exactly when none has either.
   */
  lemma OtherwiseMeans(books: seq<seq<string>>, image: string)
    ensures IsChoice(Scores(SplitImageReference, books, SplitImageReference(image)), Ambiguous) <==>
            TwoOf(Exacts(books, image)) || (NoneOf(Exacts(books, image)) && TwoOf(Looses(books, image)))
    ensures IsChoice(Scores(SplitImageReference, books, SplitImageReference(image)), Unmatched) <==>
            NoneOf(Exacts(books, image)) && NoneOf(Looses(books, image))
  {
    ScoresMean(books, image);
    var scores := Scores(SplitImageReference, books, SplitImageReference(image));
    TieMeans(Exacts(books, image), Looses(books, image), scores);
    NoneMeans(Exacts(books, image), Looses(books, image), scores);
  }

  /** An untagged official image is named exactly by :latest under each of Docker Hub's hosts, and loosely by its own name. */
  lemma LatestIsExact(h: string, n: string)
    requires IsHubHost(h) && IsShortName(n) && Trimmed(n) && n != ""
    ensures Exact(h + "/" + n + ":latest", n) && !Exact(n, n) && Loose(n, n)
  {
    assert ":latest" + "" == ":latest" && n + ("" + "") == n;
    HubRepositoriesAgree(h, n);
    OneComponent(n);
    HubName(h, n);
    ExactWritten(h + "/" + n, ":latest", "", n, "", "");
    ExactWritten(n, "", "", n, "", "");
  }

  lemma HubName(h: string, n: string)
    requires IsHubHost(h) && IsShortName(n)
    ensures CutParts(h + "/" + n, ":latest", "") && Trimmed(h + "/" + n + (":latest" + ""))
  {
    HubHost(h);
    assert ":latest" + "" == ":latest";
    var r := h + "/" + n;
    assert forall x :: x in r <==> x in h || x == '/' || x in n;
    assert r[0] == h[0] && (r + ":latest")[0] == h[0] && (r + ":latest")[|r| + 6] == 't';
  }

  lemma OneComponent(n: string)
    requires IsShortName(n) && Trimmed(n)
    ensures CutParts(n, "", "") && Trimmed(n + ("" + ""))
  {
    assert n + ("" + "") == n;
  }
}
