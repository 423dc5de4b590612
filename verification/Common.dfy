// Datatypes and notions shared by the modules of the model.
module Common {

  datatype Option<+T> = None | Some(value: T)

  function Elements(list: seq<string>): set<string> {
    set x | x in list
  }

  lemma ElementsSnoc(list: seq<string>, n: nat)
    requires n == |list| - 1
    ensures Elements(list) == Elements(list[..n]) + {list[n]}
  {
    assert list == list[..n] + [list[n]];
  }

  // list holds the members of s, each once.
  ghost predicate IsListing(list: seq<string>, s: set<string>) {
    && (forall x :: x in list <==> x in s)
    && (forall i, j :: 0 <= i < j < |list| ==> list[i] != list[j])
  }

}
