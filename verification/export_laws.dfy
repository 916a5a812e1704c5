/** Which inventories an export admits, item by item. */
module ExportLaws {
  import opened Paths
  import opened RetainedExport

  lemma {:induction false} NamesLaw(items: seq<Item>, n: nat)
    requires n <= |items|
    ensures forall x :: x in Names(items, n) <==> exists i :: 0 <= i < n && items[i].name == x
    ensures forall x :: x in Outputs(items, n) <==> exists i :: 0 <= i < n && OutputOf(items[i]) == x
  {
    hide OutputOf;
    if n == 0 {
    } else {
      NamesLaw(items, n - 1);
    }
  }

  lemma {:induction false} TotalGrows(env: Env, items: seq<Item>, m: nat, n: nat)
    requires m <= n <= |items|
    ensures TotalAt(env, items, m) <= TotalAt(env, items, n)
    decreases n
  {
    hide SizeAt;
    if m == n {
    } else {
      TotalGrows(env, items, m, n - 1);
    }
  }

  /** An inventory is admissible exactly when each item is fine on its own, no two share a name or an output, and
      the sizes of all together are within the bound. */
  lemma {:induction false} AdmissibleExactly(env: Env, items: seq<Item>, maximum: int, n: nat)
    requires n <= |items|
    ensures Admissible(env, items, maximum, n) <==>
      && (forall i :: 0 <= i < n ==> ItemOk(env, items[i], i))
      && (forall i, j :: 0 <= i < j < n ==> items[i].name != items[j].name)
      && (forall i, j :: 0 <= i < j < n ==> OutputOf(items[i]) != OutputOf(items[j]))
      && (n > 0 ==> TotalAt(env, items, n) <= maximum)
  {
    hide ItemOk, OutputOf, SizeAt, Names, Outputs;
    if n == 0 {
    } else {
      AdmissibleExactly(env, items, maximum, n - 1);
      NamesLaw(items, n - 1);
      TotalGrows(env, items, n - 1, n);
    }
  }

  /** An item is fine exactly when it has a name, its output is a relative path other than the two reserved ones,
      and its source is a relative path to a regular file, of the declared size if there is one. */
  lemma {:induction false} ItemExactly(env: Env, item: Item, t: nat)
    ensures ItemOk(env, item, t) <==>
      && item.name != "" && !Fault(env, t)
      && exists output: Parts, source: Parts, ino: nat ::
           && Relative(item.relativePath) == Some(output) && Relative(item.source) == Some(source)
           && Render(output) != "export-manifest.json" && Render(output) != "export-incomplete.json"
           && Look(env, t, source) == Regular(ino)
           && (item.size.Some? ==> item.size.value == |InodeAt(env, t, ino).bytes|)
  {
    hide Relative, Render;
    if ItemOk(env, item, t) {
      var ino := Look(env, t, SourceOf(item)).ino;
      assert Look(env, t, SourceOf(item)) == Regular(ino);
    }
  }
}
