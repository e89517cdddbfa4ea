/** The class label maps of util.py: the name-to-number dictionary read from
    class_dictionary.json, its inversion, and `class_number_to_name`. */
module Labels {
  import opened Wrappers

  /** The name-to-number dictionary as its (name, number) entries in insertion order. */
  type ClassDictionary = seq<(string, int)>

  /** A Python dict never holds a key twice. */
  ghost predicate DistinctNames(d: ClassDictionary)
  {
    forall i, j :: 0 <= i < j < |d| ==> d[i].0 != d[j].0
  }

  /** No two classes share a number: the dictionary is injective. */
  ghost predicate DistinctNumbers(d: ClassDictionary)
  {
    forall i, j :: 0 <= i < j < |d| ==> d[i].1 != d[j].1
  }

  /** What `json.load` gives for class_dictionary.json: a dict, so no name occurs twice. */
  type JsonDictionary = d: ClassDictionary | DistinctNames(d) witness []

  ghost function Numbers(d: ClassDictionary): set<int>
  {
    set i | 0 <= i < |d| :: d[i].1
  }

  /** `d.get(name)`. */
  function NameToNumber(d: ClassDictionary, name: string): Option<int>
  {
    if |d| == 0 then None
    else if d[0].0 == name then Some(d[0].1)
    else NameToNumber(d[1..], name)
  }

  /** `{v: k for k, v in d.items()}`: iteration in insertion order, so a later entry
      overwrites an earlier one with the same number. The keys are exactly the numbers of
      the dictionary, and each maps to a name that the dictionary pairs with it. */
  function Invert(d: ClassDictionary): (inv: map<int, string>)
    ensures inv.Keys == Numbers(d)
    ensures forall v :: v in inv ==> exists i :: 0 <= i < |d| && d[i] == (inv[v], v)
    decreases |d|
  {
    if |d| == 0 then map[]
    else
      var prefix := d[..|d| - 1];
      var inv := Invert(prefix);
      assert Numbers(d) == Numbers(prefix) + {d[|d| - 1].1} by {
        forall v | v in Numbers(d) ensures v in Numbers(prefix) + {d[|d| - 1].1} {
          var i :| 0 <= i < |d| && d[i].1 == v;
          if i < |d| - 1 { assert prefix[i] == d[i]; }
        }
        forall v | v in Numbers(prefix) ensures v in Numbers(d) {
          var i :| 0 <= i < |prefix| && prefix[i].1 == v;
          assert d[i] == prefix[i];
        }
      }
      inv[d[|d| - 1].1 := d[|d| - 1].0]
  }

  /** `class_number_to_name`: the mapped name, or "Unknown" when the lookup raises KeyError. */
  function ClassNumberToName(numberToName: map<int, string>, classNum: int): (name: string)
    ensures classNum in numberToName ==> name == numberToName[classNum]
    ensures classNum !in numberToName ==> name == "Unknown"
  {
    if classNum in numberToName then numberToName[classNum] else "Unknown"
  }

  /** The inverted map names each number after the LAST entry carrying it. */
  lemma {:induction false} InvertLastWins(d: ClassDictionary, j: nat)
    requires j < |d|
    requires forall k :: j < k < |d| ==> d[k].1 != d[j].1
    ensures d[j].1 in Invert(d) && Invert(d)[d[j].1] == d[j].0
  {
    if j < |d| - 1 {
      var prefix := d[..|d| - 1];
      assert prefix[j] == d[j];
      assert forall k :: j < k < |prefix| ==> prefix[k].1 != prefix[j].1 by {
        forall k | j < k < |prefix| ensures prefix[k].1 != prefix[j].1 {
          assert prefix[k] == d[k];
        }
      }
      InvertLastWins(prefix, j);
    }
  }

  /** In a dict, the entry at position i is what `get` finds for its name. */
  lemma {:induction false} NameToNumberAt(d: ClassDictionary, i: nat)
    requires DistinctNames(d) && i < |d|
    ensures NameToNumber(d, d[i].0) == Some(d[i].1)
  {
    if i > 0 {
      assert d[0].0 != d[i].0;
      assert DistinctNames(d[1..]) by {
        forall a, b | 0 <= a < b < |d| - 1 ensures d[1..][a].0 != d[1..][b].0 {
          assert d[1..][a] == d[a + 1] && d[1..][b] == d[b + 1];
        }
      }
      NameToNumberAt(d[1..], i - 1);
    }
  }

  /** For an injective dictionary, `class_number_to_name` undoes the name-to-number map:
      number_to_name[name_to_number[n]] == n for every name n. */
  lemma {:induction false} NameRoundTrip(d: ClassDictionary, name: string)
    requires DistinctNames(d) && DistinctNumbers(d)
    requires NameToNumber(d, name).Some?
    ensures ClassNumberToName(Invert(d), NameToNumber(d, name).value) == name
  {
    var i := NameIndex(d, name);
    NameToNumberAt(d, i);
    InvertLastWins(d, i);
  }

  lemma {:induction false} NameIndex(d: ClassDictionary, name: string) returns (i: nat)
    requires NameToNumber(d, name).Some?
    ensures i < |d| && d[i].0 == name
  {
    if d[0].0 == name {
      i := 0;
    } else {
      var i' := NameIndex(d[1..], name);
      i := i' + 1;
    }
  }

  /** `class_number_to_name` on the inverted dictionary: a number the dictionary uses gives a
      name that maps back to that number; any other number gives "Unknown". */
  lemma {:induction false} NumberRoundTrip(d: ClassDictionary, classNum: int)
    requires DistinctNames(d)
    ensures classNum in Numbers(d) ==> NameToNumber(d, ClassNumberToName(Invert(d), classNum)) == Some(classNum)
    ensures classNum !in Numbers(d) ==> ClassNumberToName(Invert(d), classNum) == "Unknown"
  {
    if classNum in Numbers(d) {
      var i :| 0 <= i < |d| && d[i] == (Invert(d)[classNum], classNum);
      NameToNumberAt(d, i);
    }
  }
}
