/** findSubGroups of device-scheduler/grpalloc/grpallocate.go: names below a base, tabulated by group and index. */
module SubGroupTable {
  import opened Placement

  /** Group name to index to the names below that group instance. */
  type SubGroups = map<string, map<string, set<Path>>>

  function Members(base: Path, names: set<Path>, g: string, i: string): set<Path> {
    set n | n in names && IsSub(base, n) && n[|base|] == g && n[|base| + 1] == i
  }

  ghost function SubNames(base: Path, names: set<Path>): set<Path> {
    set n | n in names && IsSub(base, n)
  }

  function Cell(sub: SubGroups, g: string, i: string): set<Path> {
    if g in sub && i in sub[g] then sub[g][i] else {}
  }

  ghost predicate IsSubGroups(base: Path, names: set<Path>, sub: SubGroups) {
    && (forall g, i :: Cell(sub, g, i) == Members(base, names, g, i))
    && (forall g, i :: g in sub && i in sub[g] ==> Cell(sub, g, i) != {})
  }

  /** utils.AssignMap on the group, index and remaining path of `n`. */
  function Assign(sub: SubGroups, g: string, i: string, n: Path): SubGroups {
    var row := if g in sub then sub[g] else map[];
    sub[g := row[i := Cell(sub, g, i) + {n}]]
  }

  lemma AssignStep(base: Path, names: set<Path>, sub: SubGroups, n: Path)
    requires IsSubGroups(base, names, sub)
    ensures !IsSub(base, n) ==> IsSubGroups(base, names + {n}, sub)
    ensures IsSub(base, n) ==> IsSubGroups(base, names + {n}, Assign(sub, n[|base|], n[|base| + 1], n))
  {
    var sub' := if IsSub(base, n) then Assign(sub, n[|base|], n[|base| + 1], n) else sub;
    forall g, i ensures Cell(sub', g, i) == Members(base, names + {n}, g, i) {
      assert Cell(sub, g, i) == Members(base, names, g, i);
      if IsSub(base, n) && n[|base|] == g && n[|base| + 1] == i {
        assert Members(base, names + {n}, g, i) == Members(base, names, g, i) + {n};
      } else {
        assert Members(base, names + {n}, g, i) == Members(base, names, g, i);
      }
    }
    forall g, i | g in sub' && i in sub'[g] ensures Cell(sub', g, i) != {} {
      if IsSub(base, n) && n[|base|] == g && n[|base| + 1] == i {
        assert n in Cell(sub', g, i);
      }
    }
  }

  /** findSubGroups: `names` below `base`, tabulated by the next group name and index. */
  method FindSubGroups(base: Path, names: set<Path>) returns (sub: SubGroups, isSub: set<Path>)
    ensures IsSubGroups(base, names, sub)
    ensures isSub == SubNames(base, names)
  {
    sub, isSub := map[], {};
    var todo := names;
    while todo != {}
      invariant todo <= names
      invariant IsSubGroups(base, names - todo, sub)
      invariant isSub == SubNames(base, names - todo)
    {
      var n :| n in todo;
      AssignStep(base, names - todo, sub, n);
      assert names - todo + {n} == names - (todo - {n});
      if IsSub(base, n) {
        sub := Assign(sub, n[|base|], n[|base| + 1], n);
        isSub := isSub + {n};
      }
      todo := todo - {n};
    }
    assert names - todo == names;
  }

  lemma MemberPrefix(base: Path, n: Path)
    requires IsSub(base, n)
    ensures base + [n[|base|], n[|base| + 1]] <= n
  {
  }
}
