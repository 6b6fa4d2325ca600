// OS image lookup: one catalogue query per architecture, and the split between
// answers that a retry cannot change and a catalogue that could not be read.
module ImageFamily {
  import opened Basics
  import opened NodeClass
  import opened Text
  import LabelSelector

  datatype Image = Image(id: int, architecture: Architecture, description: string, created: nat)

  datatype ImageKind = System | Snapshot

  datatype Query = Query(kind: ImageKind, architecture: Architecture, labels: string)

  datatype CatalogueAnswer = Unreadable | Images(images: seq<Image>)

  // What Resolve returns: an image, a PermanentError, or any other error.
  datatype Lookup = Found(image: Image) | PermanentError | TransientError

  predicate IsPermanent(r: Lookup)
  {
    r.PermanentError?
  }

  predicate Matches(img: Image, word: string, version: string)
  {
    var desc := ToLower(img.description);
    Contains(desc, word) && (version == "" || Contains(desc, version))
  }

  // The first matching image.
  ghost predicate IsFirstMatch(images: seq<Image>, i: nat, version: string)
  {
    i < |images| && Matches(images[i], "ubuntu", version)
    && forall j :: 0 <= j < i ==> !Matches(images[j], "ubuntu", version)
  }

  // The newest matching image, the first of those created at the same time.
  ghost predicate IsNewestMatch(images: seq<Image>, i: nat, version: string)
  {
    i < |images| && Matches(images[i], "talos", version)
    && (forall j :: 0 <= j < |images| && Matches(images[j], "talos", version) ==>
          images[j].created <= images[i].created)
    && forall j :: 0 <= j < i && Matches(images[j], "talos", version) ==> images[j].created < images[i].created
  }

  // Transient exactly when the catalogue was unreadable, permanent exactly when
  // it was read and nothing matches, else the first match.
  ghost predicate UbuntuAnswer(answer: CatalogueAnswer, version: string, r: Lookup)
  {
    match r
    case TransientError => answer.Unreadable?
    case PermanentError => answer.Images? && forall img :: img in answer.images ==> !Matches(img, "ubuntu", version)
    case Found(img) =>
      answer.Images? && exists i: nat :: IsFirstMatch(answer.images, i, version) && img == answer.images[i]
  }

  ghost predicate TalosAnswer(answer: CatalogueAnswer, version: string, r: Lookup)
  {
    match r
    case TransientError => answer.Unreadable?
    case PermanentError => answer.Images? && forall img :: img in answer.images ==> !Matches(img, "talos", version)
    case Found(img) =>
      answer.Images? && exists i: nat :: IsNewestMatch(answer.images, i, version) && img == answer.images[i]
  }

  method ResolveUbuntu(answer: CatalogueAnswer, version: string) returns (r: Lookup)
    ensures UbuntuAnswer(answer, version, r)
  {
    if answer.Unreadable? {
      return TransientError;
    }
    for i := 0 to |answer.images|
      invariant forall j :: 0 <= j < i ==> !Matches(answer.images[j], "ubuntu", version)
    {
      if Matches(answer.images[i], "ubuntu", version) {
        assert IsFirstMatch(answer.images, i, version);
        return Found(answer.images[i]);
      }
    }
    return PermanentError;
  }

  method ResolveTalos(answer: CatalogueAnswer, version: string) returns (r: Lookup)
    ensures TalosAnswer(answer, version, r)
  {
    if answer.Unreadable? {
      return TransientError;
    }
    var images := answer.images;
    var best: Option<Image> := None;
    ghost var at: nat := 0;
    for i := 0 to |images|
      invariant best.None? ==> forall j :: 0 <= j < i ==> !Matches(images[j], "talos", version)
      invariant best.Some? ==> at < i && best.value == images[at] && Matches(images[at], "talos", version)
      invariant best.Some? ==> forall j :: 0 <= j < i && Matches(images[j], "talos", version) ==>
        images[j].created <= images[at].created && (j < at ==> images[j].created < images[at].created)
    {
      if Matches(images[i], "talos", version) {
        if best.None? || images[i].created > best.value.created {
          best, at := Some(images[i]), i;
        }
      }
    }
    if best.None? {
      return PermanentError;
    }
    assert IsNewestMatch(images, at, version);
    return Found(best.value);
  }

  // The description has the family's word as a slice, in some case, and the version,
  // if one is asked for, as a slice of its lower-cased text.
  ghost predicate IsNamed(description: string, word: string, version: string)
  {
    && (exists i, j :: 0 <= i <= j <= |description| && ToLower(description[i..j]) == word)
    && (version != "" ==>
          exists i, j :: 0 <= i <= j <= |ToLower(description)| && ToLower(description)[i..j] == version)
  }

  lemma MatchesIff(img: Image, word: string, version: string)
    ensures Matches(img, word, version) <==> IsNamed(img.description, word, version)
  {
    ContainsAnyCase(img.description, word);
    ContainsIff(ToLower(img.description), version);
  }

  // For Ubuntu: the first image so named; unreadable is transient, none is permanent.
  lemma UbuntuMeaning(answer: CatalogueAnswer, version: string, r: Lookup)
    requires UbuntuAnswer(answer, version, r)
    ensures r == TransientError <==> answer.Unreadable?
    ensures r == PermanentError <==>
      answer.Images? && forall img :: img in answer.images ==> !IsNamed(img.description, "ubuntu", version)
    ensures r.Found? ==> exists n ::
      && 0 <= n < |answer.images| && answer.images[n] == r.image && IsNamed(r.image.description, "ubuntu", version)
      && forall j :: 0 <= j < n ==> !IsNamed(answer.images[j].description, "ubuntu", version)
  {
    forall img: Image
      ensures Matches(img, "ubuntu", version) <==> IsNamed(img.description, "ubuntu", version)
    {
      MatchesIff(img, "ubuntu", version);
    }
    if r.Found? {
      var n: nat :| IsFirstMatch(answer.images, n, version) && r.image == answer.images[n];
      assert answer.images[n] == r.image;
    }
  }

  // For Talos: the newest image so named, the first of those as new.
  lemma TalosMeaning(answer: CatalogueAnswer, version: string, r: Lookup)
    requires TalosAnswer(answer, version, r)
    ensures r == TransientError <==> answer.Unreadable?
    ensures r == PermanentError <==>
      answer.Images? && forall img :: img in answer.images ==> !IsNamed(img.description, "talos", version)
    ensures r.Found? ==> exists n ::
      && 0 <= n < |answer.images| && answer.images[n] == r.image && IsNamed(r.image.description, "talos", version)
      && forall j :: 0 <= j < |answer.images| && IsNamed(answer.images[j].description, "talos", version) ==>
           answer.images[j].created < r.image.created || (answer.images[j].created == r.image.created && n <= j)
  {
    forall img: Image
      ensures Matches(img, "talos", version) <==> IsNamed(img.description, "talos", version)
    {
      MatchesIff(img, "talos", version);
    }
    if r.Found? {
      var n: nat :| IsNewestMatch(answer.images, n, version) && r.image == answer.images[n];
      assert answer.images[n] == r.image;
    }
  }

  // Both rules fix the answer.
  lemma AnswersUnique(answer: CatalogueAnswer, version: string, r: Lookup, r': Lookup)
    ensures UbuntuAnswer(answer, version, r) && UbuntuAnswer(answer, version, r') ==> r == r'
    ensures TalosAnswer(answer, version, r) && TalosAnswer(answer, version, r') ==> r == r'
  {
    if UbuntuAnswer(answer, version, r) && UbuntuAnswer(answer, version, r') && r.Found? && r'.Found? {
      var i: nat :| IsFirstMatch(answer.images, i, version) && r.image == answer.images[i];
      var j: nat :| IsFirstMatch(answer.images, j, version) && r'.image == answer.images[j];
      assert i == j;
    }
    if TalosAnswer(answer, version, r) && TalosAnswer(answer, version, r') && r.Found? && r'.Found? {
      var i: nat :| IsNewestMatch(answer.images, i, version) && r.image == answer.images[i];
      var j: nat :| IsNewestMatch(answer.images, j, version) && r'.image == answer.images[j];
      assert i == j;
    }
  }

  // Family, version and labels choose one query, if any, and one matching rule.
  // An unsupported family is permanent without a query.
  ghost predicate Answered(
      selector: ImageSelector, arch: Architecture, catalogue: Query -> CatalogueAnswer, query: Option<Query>, r: Lookup)
  {
    match query
    case None => ToLower(selector.family) != "ubuntu" && ToLower(selector.family) != "talos" && IsPermanent(r)
    case Some(q) =>
      && q.architecture == arch && LabelSelector.Renders(q.labels, selector.selector)
      && match q.kind
         case System => ToLower(selector.family) == "ubuntu" && UbuntuAnswer(catalogue(q), selector.version, r)
         case Snapshot => ToLower(selector.family) == "talos" && TalosAnswer(catalogue(q), selector.version, r)
  }

  // The one query, if any, is for the architecture and the labels asked for, of
  // system images for Ubuntu and of snapshots for Talos; an image found is named as
  // the family and version say.
  lemma ResolveMeaning(
      selector: ImageSelector, arch: Architecture, catalogue: Query -> CatalogueAnswer, query: Option<Query>, r: Lookup)
    requires Answered(selector, arch, catalogue, query, r)
    ensures query.None? <==> ToLower(selector.family) !in ["ubuntu", "talos"]
    ensures query.None? ==> r == PermanentError
    ensures query.Some? ==>
      && query.value.architecture == arch
      && query.value.kind == (if ToLower(selector.family) == "ubuntu" then System else Snapshot)
      && (exists ks ::
            LabelSelector.SortedKeysOf(ks, selector.selector.Keys)
            && query.value.labels == LabelSelector.Join(ks, selector.selector))
      && (r == TransientError <==> catalogue(query.value).Unreadable?)
      && (r.Found? ==>
            && catalogue(query.value).Images? && r.image in catalogue(query.value).images
            && IsNamed(r.image.description, ToLower(selector.family), selector.version))
  {
    if query.Some? {
      FamiliesDiffer();
      match query.value.kind
      case System => UbuntuMeaning(catalogue(query.value), selector.version, r);
      case Snapshot => TalosMeaning(catalogue(query.value), selector.version, r);
    }
  }

  lemma FamiliesDiffer()
    ensures "ubuntu" != "talos"
  {
    assert |"ubuntu"| != |"talos"|;
  }

  method Resolve(selector: ImageSelector, arch: Architecture, catalogue: Query -> CatalogueAnswer)
    returns (r: Lookup, query: Option<Query>)
    ensures Answered(selector, arch, catalogue, query, r)
  {
    var labels := LabelSelector.LabelSelectorString(selector.selector);
    var family := ToLower(selector.family);
    if family == "ubuntu" {
      query := Some(Query(System, arch, labels));
      r := ResolveUbuntu(catalogue(Query(System, arch, labels)), selector.version);
    } else if family == "talos" {
      query := Some(Query(Snapshot, arch, labels));
      r := ResolveTalos(catalogue(Query(Snapshot, arch, labels)), selector.version);
    } else {
      query := None;
      r := PermanentError;
    }
  }
}
