/** Which names a bag's metadata may give its members. */
module PlaybackLaws {
  import opened Paths
  import opened PlaybackSelection

  /** A member name is accepted exactly when it is the printed form of a path of file names, has no backslash and no
      control character, and ends in `.mcap`. */
  lemma {:induction false} MemberNameExactly(name: string)
    ensures MemberName(name) <==>
            exists path: Parts ::
              && path != [] && FileNames(path) && name == Render(path) && '\\' !in name
              && (forall i :: 0 <= i < |name| ==> ' ' <= name[i])
              && EndsWith(name, ".mcap")
  {
    hide Render, EndsWith;
    if MemberName(name) {
      KeptAll(Split(name));
      assert name == Render(Split(name)) && Split(name) != [];
    }
    forall path: Parts | path != [] && FileNames(path) && name == Render(path)
      ensures Split(name) == path && Kept(Split(name)) == path
    {
      PrintedSplits(path);
      KeptAll(path);
    }
  }

  lemma {:induction false} PrintedSplits(path: Parts)
    requires path != [] && FileNames(path)
    ensures Split(Render(path)) == path
  {
    SplitJoin(path);
  }
}
