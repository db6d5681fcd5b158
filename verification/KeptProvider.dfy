/** A virtual name for which the downgrade rule keeps a version that does not serve it. */
module KeptProvider {
  import opened Outcomes
  import opened CatalogChoice
  import opened Chooser
  import opened SmallCatalogs
  import DV = DebianVersion

  function Mailer(version: Version): Row {
    Row("mailer", "deb", version, "amd64", None, "main", -1, "", "", "", map[])
  }

  /** It lists version 1 of the mailer, which provides the transport in version 2, and version 2
      of the mailer, which provides it in version 3. */
  function Listing(one: Version, two: Version, three: Version): (string, string, string) -> seq<Found> {
    (name, kind, architecture) =>
      if name == "transport" && kind == "deb"
      then [Found(Mailer(one), Some(two)), Found(Mailer(two), Some(three))] else []
  }

  function Mirror(one: Version, two: Version, three: Version): Context { OnlyMirror(Listing(one, two, three)) }

  /** The transport in exactly this version. */
  function Transport(two: Version): Query {
    Query("transport", "deb", "amd64", Versioned(Equal, two), None, None, None, false)
  }

  lemma OnlyTheFirstIsEligible(one: Version, two: Version, three: Version)
    requires DV.Compare(one, two) < 0 < DV.Compare(three, two)
    ensures var ctx, q := Mirror(one, two, three), Transport(two);
            Eligible(ctx, q, Returned(ctx, q)[0]) && !Eligible(ctx, q, Returned(ctx, q)[1])
  {
    DV.CompareAntisymmetric(two, two);
    assert MIRROR.classes[0] == "";
  }

  lemma MirrorIsSound(one: Version, two: Version, three: Version)
    ensures Sound(Mirror(one, two, three))
  {
  }

  lemma OnlyTheFirstCompetes(one: Version, two: Version, three: Version)
    requires DV.Compare(one, two) < 0 < DV.Compare(three, two)
    ensures Competing(Mirror(one, two, three), Transport(two)) == [Mailer(one)]
  {
    OnlyTheFirstIsEligible(one, two, three);
    KeptOfTwo(Mirror(one, two, three), Transport(two), Found(Mailer(one), Some(two)), Found(Mailer(two), Some(three)));
  }

  lemma TwoIsNotListed(one: Version, two: Version, three: Version)
    requires DV.Compare(one, two) < 0 < DV.Compare(three, two)
    ensures !Lists(Mirror(one, two, three), Transport(two), Candidate(Mailer(two), 500))
  {
    OnlyTheFirstIsEligible(one, two, three);
    DV.CompareAntisymmetric(two, two);
    assert Mailer(one) != Mailer(two);
  }

  lemma TwoIsKept(one: Version, two: Version)
    requires DV.Compare(one, two) < 0
    ensures var kept := Candidate(Mailer(two), 500);
            Settled(Transport(two), Candidate(Mailer(one), 500), map[("mailer", "deb") := kept]) == kept
  {
    DV.CompareAntisymmetric(two, two);
    assert KeepsInstalled(Transport(two), Candidate(Mailer(one), 500),
        map[("mailer", "deb") := Candidate(Mailer(two), 500)]);
  }

  /** What is chosen with version 2 of the mailer installed. */
  lemma WhatIsChosen(one: Version, two: Version, three: Version)
    requires DV.Compare(one, two) < 0 < DV.Compare(three, two)
    ensures var kept := Candidate(Mailer(two), 500);
            && Sound(Mirror(one, two, three))
            && Outcome(Mirror(one, two, three), Transport(two), map[], map[("mailer", "deb") := kept]) == Chosen(kept)
  {
    var ctx, q, installed := Mirror(one, two, three), Transport(two),
        map[("mailer", "deb") := Candidate(Mailer(two), 500)];
    MirrorIsSound(one, two, three);
    OnlyTheFirstCompetes(one, two, three);
    OneVersionIsChosen(Listing(one, two, three), q, [Mailer(one)], Mailer(one), map[], installed);
    TwoIsKept(one, two);
  }

  /** With version 2 of the mailer installed, the query for the transport in version 2 gets it,
      although the only listed provider of that version is version 1 of the mailer. */
  lemma KeptDoesNotServe(one: Version, two: Version, three: Version)
    requires DV.Compare(one, two) < 0 < DV.Compare(three, two)
    ensures var ctx, q, kept := Mirror(one, two, three), Transport(two), Candidate(Mailer(two), 500);
            && Sound(ctx) && Outcome(ctx, q, map[], map[("mailer", "deb") := kept]) == Chosen(kept)
            && kept.row.package != q.name && !Lists(ctx, q, kept)
  {
    WhatIsChosen(one, two, three);
    TwoIsNotListed(one, two, three);
  }

  /** Versions 1, 2 and 3 are such versions. */
  lemma OneTwoThree()
    ensures DV.Split("1").Ok? && DV.Split("2").Ok? && DV.Split("3").Ok?
    ensures DV.Compare("1", "2") < 0 < DV.Compare("3", "2")
  {
    DV.OneDigitVersions('1', '2');
    DV.OneDigitVersions('3', '2');
  }
}
