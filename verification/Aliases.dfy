/** Alternate names (/ALTERNATENAME): following a chain of aliases that may be cyclic. */
module Aliases {
  type Aliases = map<string, string>

  /** The name after `n` aliases, or the last one when the chain is shorter. */
  ghost function Follow(aliases: Aliases, name: string, n: nat): string
    decreases n
  {
    if n == 0 || name !in aliases then name else Follow(aliases, aliases[name], n - 1)
  }

  lemma {:induction false} FollowMore(aliases: Aliases, name: string, n: nat, m: nat)
    ensures Follow(aliases, name, n + m) == Follow(aliases, Follow(aliases, name, n), m)
    decreases n
  {
    if n > 0 && name in aliases { FollowMore(aliases, aliases[name], n - 1, m); }
  }

  /** The name resolve_alias_name returns: the end of the chain, or the first name met twice. */
  function Resolve(aliases: Aliases, name: string, visited: set<string>): string
    requires visited <= aliases.Keys
    decreases aliases.Keys - visited
  {
    if name in visited || name !in aliases then name else Resolve(aliases, aliases[name], visited + {name})
  }

  function Resolved(aliases: Aliases, name: string): string {
    Resolve(aliases, name, {})
  }

  method ResolveAliasName(aliases: Aliases, name: string) returns (r: string)
    ensures r == Resolved(aliases, name)
  {
    var visited: set<string> := {};
    r := name;
    while r !in visited
      invariant visited <= aliases.Keys && Resolve(aliases, r, visited) == Resolved(aliases, name)
      decreases aliases.Keys - visited
    {
      if r !in aliases { break; }
      visited := visited + {r};
      r := aliases[r];
    }
  }

  ghost predicate MetTwice(aliases: Aliases, name: string, r: string) {
    exists i: nat, j: nat :: i < j && Follow(aliases, name, i) == r == Follow(aliases, name, j)
  }

  lemma {:induction false} ResolveFollows(aliases: Aliases, name: string, visited: set<string>) returns (n: nat)
    requires visited <= aliases.Keys
    ensures Resolve(aliases, name, visited) == Follow(aliases, name, n)
    ensures var r := Resolve(aliases, name, visited); r !in aliases || r in visited || MetTwice(aliases, name, r)
    decreases aliases.Keys - visited
  {
    n := 0;
    if name !in visited && name in aliases {
      var r := Resolve(aliases, name, visited);
      var m := ResolveFollows(aliases, aliases[name], visited + {name});
      n := m + 1;
      if r in aliases && r !in visited {
        if r == name {
          assert Follow(aliases, name, 0) == r == Follow(aliases, name, n);
        } else {
          var i: nat, j: nat :| i < j && Follow(aliases, aliases[name], i) == r == Follow(aliases, aliases[name], j);
          assert Follow(aliases, name, i + 1) == r == Follow(aliases, name, j + 1);
        }
      }
    }
  }

  /** The resolved name ends the chain, or the chain runs into a cycle through it and never ends. */
  lemma ResolvedEndsChain(aliases: Aliases, name: string)
    ensures exists n: nat :: Follow(aliases, name, n) == Resolved(aliases, name)
    ensures Resolved(aliases, name) in aliases <==> forall n: nat :: Follow(aliases, name, n) in aliases
  {
    var r := Resolved(aliases, name);
    var n := ResolveFollows(aliases, name, {});
    if r in aliases {
      var i: nat, j: nat :| i < j && Follow(aliases, name, i) == r == Follow(aliases, name, j);
      forall k: nat ensures Follow(aliases, name, k) in aliases { CycleStays(aliases, name, i, j, k); }
    }
  }

  /** The `n`-th name of the chain is the first that is no alias or has been met before. */
  ghost predicate StopsAt(aliases: Aliases, name: string, n: nat) {
    && Fresh(aliases, name, n)
    && (Follow(aliases, name, n) in aliases ==>
         exists k: nat :: k < n && Follow(aliases, name, k) == Follow(aliases, name, n))
  }

  /** The first `n` names of the chain are aliases, all different. */
  ghost predicate Fresh(aliases: Aliases, name: string, n: nat) {
    && (forall m: nat :: m < n ==> Follow(aliases, name, m) in aliases)
    && (forall k: nat, m: nat :: k < m < n ==> Follow(aliases, name, k) != Follow(aliases, name, m))
  }

  ghost predicate Passed(aliases: Aliases, name: string, k: nat, v: string) {
    exists i: nat :: i < k && Follow(aliases, name, i) == v
  }

  lemma {:induction false} Stops(aliases: Aliases, name: string, k: nat, visited: set<string>) returns (n: nat)
    requires Fresh(aliases, name, k) && visited <= aliases.Keys
    requires forall v :: v in visited <==> Passed(aliases, name, k, v)
    ensures StopsAt(aliases, name, n)
    ensures Resolve(aliases, Follow(aliases, name, k), visited) == Follow(aliases, name, n)
    decreases aliases.Keys - visited
  {
    var current := Follow(aliases, name, k);
    n := k;
    if current !in visited && current in aliases {
      FollowMore(aliases, name, k, 1);
      assert Follow(aliases, name, k + 1) == aliases[current];
      forall v ensures v in visited + {current} <==> Passed(aliases, name, k + 1, v) {
        if Passed(aliases, name, k, v) {
          var i: nat :| i < k && Follow(aliases, name, i) == v;
          assert i < k + 1;
        }
      }
      n := Stops(aliases, name, k + 1, visited + {current});
    }
  }

  /** The resolved name is the end of the chain, or the first name the chain meets a second time. */
  lemma ResolvedStops(aliases: Aliases, name: string) returns (n: nat)
    ensures StopsAt(aliases, name, n) && Resolved(aliases, name) == Follow(aliases, name, n)
  {
    n := Stops(aliases, name, 0, {});
  }

  /** There is only one such name. */
  lemma StopsOnce(aliases: Aliases, name: string, n: nat, m: nat)
    requires StopsAt(aliases, name, n) && StopsAt(aliases, name, m)
    ensures n == m
  {
  }

  /** A chain that returns to a name never leaves the aliases. */
  lemma {:induction false} CycleStays(aliases: Aliases, name: string, i: nat, j: nat, k: nat)
    requires i < j && Follow(aliases, name, i) == Follow(aliases, name, j) && Follow(aliases, name, i) in aliases
    ensures Follow(aliases, name, k) in aliases
    decreases k
  {
    if k <= j {
      if Follow(aliases, name, k) !in aliases {
        FollowMore(aliases, name, k, j - k);
      }
    } else {
      FollowMore(aliases, name, j, k - j);
      FollowMore(aliases, name, i, k - j);
      CycleStays(aliases, name, i, j, k - (j - i));
    }
  }
}
