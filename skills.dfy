/**
 * The list and dictionary logic behind the skill routes of routes/user.js:
 * adding a skill, removing one, and the skill statistics over all users.
 */
module Skills {
  import opened Wrappers
  import opened UserModel

  ghost predicate NoDuplicates(s: seq<string>)
  {
    forall i, j :: 0 <= i < j < |s| ==> s[i] != s[j]
  }

  /** `if (!skills.includes(skill)) skills.push(skill)` as a value. */
  function WithSkill(skills: seq<string>, skill: string): (r: seq<string>)
    ensures skill in r
    ensures |skills| <= |r| <= |skills| + 1 && r[..|skills|] == skills
    ensures forall x :: x in r ==> x == skill || x in skills
  {
    if skill in skills then skills else skills + [skill]
  }

  /** Adding a skill that is already listed changes nothing; a new one goes at the end. */
  lemma WithSkillPlacement(skills: seq<string>, skill: string)
    ensures skill in skills ==> WithSkill(skills, skill) == skills
    ensures skill !in skills ==> WithSkill(skills, skill) == skills + [skill] && WithSkill(skills, skill)[|skills|] == skill
  {
  }

  /** Adding the same skill twice gives the list that adding it once gives. */
  lemma WithSkillIdempotent(skills: seq<string>, skill: string)
    ensures WithSkill(WithSkill(skills, skill), skill) == WithSkill(skills, skill)
  {
  }

  /** A list without duplicates stays without duplicates when a skill is added. */
  lemma WithSkillKeepsNoDuplicates(skills: seq<string>, skill: string)
    requires NoDuplicates(skills)
    ensures NoDuplicates(WithSkill(skills, skill))
  {
  }

  /** `skills.filter(s => s !== skill)`. */
  function Without(skills: seq<string>, skill: string): (r: seq<string>)
    ensures skill !in r
    ensures |r| <= |skills|
    ensures forall x :: x in r ==> x in skills
  {
    if skills == [] then []
    else (if skills[0] == skill then [] else [skills[0]]) + Without(skills[1..], skill)
  }

  /** Filtering a concatenation filters each part and keeps them in order. */
  lemma {:induction false} WithoutAppend(a: seq<string>, b: seq<string>, skill: string)
    ensures Without(a + b, skill) == Without(a, skill) + Without(b, skill)
  {
    if a == [] {
      assert a + b == b;
    } else {
      var head := if a[0] == skill then [] else [a[0]];
      assert (a + b)[0] == a[0] && (a + b)[1..] == a[1..] + b;
      WithoutAppend(a[1..], b, skill);
      assert head + (Without(a[1..], skill) + Without(b, skill)) == (head + Without(a[1..], skill)) + Without(b, skill);
    }
  }

  /** Removing a skill that is not listed leaves the list as it was. */
  lemma {:induction false} WithoutAbsent(skills: seq<string>, skill: string)
    requires skill !in skills
    ensures Without(skills, skill) == skills
  {
    if skills != [] {
      WithoutAbsent(skills[1..], skill);
    }
  }

  /** Removing twice is removing once. */
  lemma WithoutIdempotent(skills: seq<string>, skill: string)
    ensures Without(Without(skills, skill), skill) == Without(skills, skill)
  {
    WithoutAbsent(Without(skills, skill), skill);
  }

  /** Every other skill keeps all its occurrences; the removed one has none left. */
  lemma {:induction false} WithoutMultiset(skills: seq<string>, skill: string)
    ensures multiset(Without(skills, skill)) == multiset(skills)[skill := 0]
  {
    if skills != [] {
      WithoutMultiset(skills[1..], skill);
      assert skills == [skills[0]] + skills[1..];
    }
  }

  // ---------------------------------------------------------------------
  // Skill statistics: `{ [skill]: { count, users } }` over all users

  datatype SkillStat = SkillStat(count: nat, users: seq<string>)

  /** How often `skill` occurs in one list. */
  function Occurrences(skills: seq<string>, skill: string): nat
  {
    if skills == [] then 0
    else Occurrences(skills[..|skills| - 1], skill) + (if skills[|skills| - 1] == skill then 1 else 0)
  }

  lemma OccurrencesSnoc(skills: seq<string>, x: string)
    ensures forall s :: Occurrences(skills + [x], s) == Occurrences(skills, s) + (if x == s then 1 else 0)
  {
    assert (skills + [x])[..|skills|] == skills;
  }

  /** `n` copies of `x`. */
  function Repeat(x: string, n: nat): (r: seq<string>)
    ensures |r| == n && forall i :: 0 <= i < n ==> r[i] == x
  {
    if n == 0 then [] else Repeat(x, n - 1) + [x]
  }

  /** The skills of one list, as a set. */
  function Elements(skills: seq<string>): (r: set<string>)
    ensures forall x :: x in r <==> x in skills
  {
    set i | 0 <= i < |skills| :: skills[i]
  }

  /** Every skill occurring in some user's list. */
  function SkillsOf(users: seq<User>): set<string>
  {
    if users == [] then {}
    else SkillsOf(users[..|users| - 1]) + Elements(users[|users| - 1].skills)
  }

  /** The total number of occurrences of `skill` across all users' lists. */
  function Count(users: seq<User>, skill: string): nat
  {
    if users == [] then 0
    else Count(users[..|users| - 1], skill) + Occurrences(users[|users| - 1].skills, skill)
  }

  /** The users' names in iteration order, each repeated once per occurrence of `skill` in that user's list. */
  function Holders(users: seq<User>, skill: string): seq<string>
  {
    if users == [] then []
    else Holders(users[..|users| - 1], skill) + Repeat(users[|users| - 1].name, Occurrences(users[|users| - 1].skills, skill))
  }

  /** What the statistics dictionary holds once every user has been visited. */
  function SkillStats(users: seq<User>): map<string, SkillStat>
  {
    map s | s in SkillsOf(users) :: SkillStat(Count(users, s), Holders(users, s))
  }

  /** A skill is a key exactly when it occurs in some user's list. */
  lemma {:induction false} SkillsOfExactly(users: seq<User>, s: string)
    ensures s in SkillsOf(users) <==> exists i :: 0 <= i < |users| && s in users[i].skills
  {
    if users != [] {
      var last := |users| - 1;
      SkillsOfExactly(users[..last], s);
      if s in SkillsOf(users[..last]) {
        var i :| 0 <= i < last && s in users[..last][i].skills;
        assert s in users[i].skills;
      }
      if i :| 0 <= i < |users| && s in users[i].skills {
        if i < last {
          assert s in users[..last][i].skills;
        }
      }
    }
  }

  lemma {:induction false} OccurrencesPositive(skills: seq<string>, s: string)
    ensures Occurrences(skills, s) > 0 <==> s in skills
  {
    if skills != [] {
      var last := |skills| - 1;
      OccurrencesPositive(skills[..last], s);
      assert skills == skills[..last] + [skills[last]];
    }
  }

  /** The count of a skill is positive exactly when the skill is a key. */
  lemma {:induction false} CountPositive(users: seq<User>, s: string)
    ensures Count(users, s) > 0 <==> s in SkillsOf(users)
  {
    if users != [] {
      CountPositive(users[..|users| - 1], s);
      OccurrencesPositive(users[|users| - 1].skills, s);
    }
  }

  /** Each `users` list is as long as the skill's `count`. */
  lemma {:induction false} HoldersLength(users: seq<User>, s: string)
    ensures |Holders(users, s)| == Count(users, s)
  {
    if users != [] {
      HoldersLength(users[..|users| - 1], s);
    }
  }

  /** Every name in a skill's `users` list belongs to a user whose list holds that skill. */
  lemma {:induction false} HoldersHaveSkill(users: seq<User>, s: string, k: nat)
    requires k < |Holders(users, s)|
    ensures exists i :: 0 <= i < |users| && users[i].name == Holders(users, s)[k] && s in users[i].skills
  {
    var last := |users| - 1;
    var prefix := Holders(users[..last], s);
    var n := Occurrences(users[last].skills, s);
    if k < |prefix| {
      HoldersHaveSkill(users[..last], s, k);
      var i :| 0 <= i < last && users[..last][i].name == prefix[k] && s in users[..last][i].skills;
      assert users[i] == users[..last][i];
    } else {
      OccurrencesPositive(users[last].skills, s);
      assert Holders(users, s)[k] == Repeat(users[last].name, n)[k - |prefix|];
    }
  }

  /** The dictionary after visiting `done` in full and the first skills of the next user. */
  ghost predicate StatsAfter(stats: map<string, SkillStat>, done: seq<User>, name: string, visited: seq<string>)
  {
    && stats.Keys == SkillsOf(done) + Elements(visited)
    && forall s :: s in stats ==>
         stats[s] == SkillStat(Count(done, s) + Occurrences(visited, s),
                               Holders(done, s) + Repeat(name, Occurrences(visited, s)))
  }

  /** The dictionary after one visit of `skill` by `name`: the entry, created if missing, is bumped. */
  function Bumped(stats: map<string, SkillStat>, skill: string, name: string): map<string, SkillStat>
  {
    var prior := if skill in stats then stats[skill] else SkillStat(0, []);
    stats[skill := SkillStat(prior.count + 1, prior.users + [name])]
  }

  /** The entry a visit starts from, created if missing, is the entry the predicate describes. */
  lemma StatsPrior(stats: map<string, SkillStat>, done: seq<User>, name: string, visited: seq<string>, skill: string)
    requires StatsAfter(stats, done, name, visited)
    ensures (if skill in stats then stats[skill] else SkillStat(0, [])) ==
      SkillStat(Count(done, skill) + Occurrences(visited, skill), Holders(done, skill) + Repeat(name, Occurrences(visited, skill)))
  {
    if skill !in stats {
      CountPositive(done, skill);
      OccurrencesPositive(visited, skill);
      HoldersLength(done, skill);
    }
  }

  /** One visit of the next skill in the user's list. */
  lemma StatsStep(stats: map<string, SkillStat>, done: seq<User>, name: string, skills: seq<string>, j: nat)
    requires j < |skills| && StatsAfter(stats, done, name, skills[..j])
    ensures StatsAfter(Bumped(stats, skills[j], name), done, name, skills[..j + 1])
  {
    var visited, skill := skills[..j], skills[j];
    var next := Bumped(stats, skill, name);
    assert skills[..j + 1] == visited + [skill];
    OccurrencesSnoc(visited, skill);
    assert next.Keys == SkillsOf(done) + Elements(visited + [skill]);
    forall s | s in next
      ensures next[s] == SkillStat(Count(done, s) + Occurrences(visited + [skill], s),
                                   Holders(done, s) + Repeat(name, Occurrences(visited + [skill], s)))
    {
      if s == skill {
        StatsBumpedEntry(stats, done, name, visited, skill);
      }
    }
  }

  /** The bumped entry counts the visit just made. */
  lemma StatsBumpedEntry(stats: map<string, SkillStat>, done: seq<User>, name: string, visited: seq<string>, skill: string)
    requires StatsAfter(stats, done, name, visited)
    ensures Bumped(stats, skill, name)[skill] ==
      SkillStat(Count(done, skill) + Occurrences(visited + [skill], skill),
                Holders(done, skill) + Repeat(name, Occurrences(visited + [skill], skill)))
  {
    StatsPrior(stats, done, name, visited, skill);
    OccurrencesSnoc(visited, skill);
    var n := Occurrences(visited, skill);
    assert Repeat(name, n + 1) == Repeat(name, n) + [name];
  }

  /** Having visited all of a user's skills is having visited one more user. */
  lemma StatsNextUser(stats: map<string, SkillStat>, users: seq<User>, i: nat)
    requires i < |users|
    requires StatsAfter(stats, users[..i], users[i].name, users[i].skills)
    ensures StatsAfter(stats, users[..i + 1], "", [])
  {
    assert users[..i + 1][..i] == users[..i];
  }

  lemma StatsDone(stats: map<string, SkillStat>, users: seq<User>)
    requires StatsAfter(stats, users, "", [])
    ensures stats == SkillStats(users)
  {
    assert stats.Keys == SkillStats(users).Keys;
    forall s | s in stats
      ensures stats[s] == SkillStats(users)[s]
    {
    }
  }

  /** The nested `forEach` loops that build `skillStats`, with each entry created on first sight. */
  method ComputeSkillStats(users: seq<User>) returns (stats: map<string, SkillStat>)
    ensures stats == SkillStats(users)
  {
    stats := map[];
    var i := 0;
    while i < |users|
      invariant 0 <= i <= |users|
      invariant StatsAfter(stats, users[..i], "", [])
    {
      var user := users[i];
      var j := 0;
      while j < |user.skills|
        invariant 0 <= j <= |user.skills|
        invariant StatsAfter(stats, users[..i], user.name, user.skills[..j])
      {
        var skill := user.skills[j];
        StatsStep(stats, users[..i], user.name, user.skills, j);
        stats := Bumped(stats, skill, user.name);
        j := j + 1;
      }
      assert user.skills[..j] == user.skills;
      StatsNextUser(stats, users, i);
      i := i + 1;
    }
    assert users[..i] == users;
    StatsDone(stats, users);
  }

  // ---------------------------------------------------------------------
  // The same loops as written, over a plain JavaScript object

  /** The names every JavaScript object inherits from `Object.prototype`. */
  const InheritedKeys: set<string> := {
    "__proto__", "constructor", "hasOwnProperty", "isPrototypeOf", "propertyIsEnumerable",
    "toLocaleString", "toString", "valueOf",
    "__defineGetter__", "__defineSetter__", "__lookupGetter__", "__lookupSetter__"}

  /** What `skillStats[skill]` reads on an object made by `{}`. */
  datatype Slot = Own(stat: SkillStat) | InheritedMember | Undefined

  /** Property lookup: an own entry first, then the prototype, else `undefined`. */
  function Lookup(skillStats: map<string, SkillStat>, skill: string): Slot
  {
    if skill in skillStats then Own(skillStats[skill])
    else if skill in InheritedKeys then InheritedMember
    else Undefined
  }

  /**
   * The nested `forEach` loops exactly as written.  `!skillStats[skill]` is
   * false for an inherited member (a function, or `Object.prototype` for
   * "__proto__"), so no entry is created; `count++` then writes to that
   * member, and `.users` is `undefined`, so `.users.push` throws a TypeError.
   */
  method ComputeSkillStatsAsWritten(users: seq<User>) returns (r: Result<map<string, SkillStat>, string>)
    ensures r.Failure? <==> !(SkillsOf(users) !! InheritedKeys)
    ensures r.Success? ==> r.value == SkillStats(users)
  {
    var skillStats: map<string, SkillStat> := map[];
    var i := 0;
    while i < |users|
      invariant 0 <= i <= |users|
      invariant StatsAfter(skillStats, users[..i], "", [])
      invariant skillStats.Keys !! InheritedKeys
    {
      var user := users[i];
      var j := 0;
      while j < |user.skills|
        invariant 0 <= j <= |user.skills|
        invariant StatsAfter(skillStats, users[..i], user.name, user.skills[..j])
        invariant skillStats.Keys !! InheritedKeys
      {
        var skill := user.skills[j];
        var visited := VisitSkill(skillStats, skill, user.name);
        if visited.Failure? {
          InheritedSkillOccurs(users, i, j);
          return Failure(visited.error);
        }
        AsWrittenStep(skillStats, users[..i], user.name, user.skills, j);
        skillStats := visited.value;
        j := j + 1;
      }
      assert user.skills[..j] == user.skills;
      StatsNextUser(skillStats, users, i);
      i := i + 1;
    }
    assert users[..i] == users;
    StatsDone(skillStats, users);
    r := Success(skillStats);
  }

  /**
   * The callback `skill => { ... }` on a plain object: create the entry when
   * the lookup is undefined, then bump its count and push the name; an
   * inherited member has no `users` array, so the push throws.
   */
  method VisitSkill(skillStats: map<string, SkillStat>, skill: string, name: string)
    returns (r: Result<map<string, SkillStat>, string>)
    ensures r.Failure? <==> skill !in skillStats && skill in InheritedKeys
    ensures r.Success? ==> r.value == Bumped(skillStats, skill, name)
  {
    var stats := skillStats;
    var slot := Lookup(stats, skill);
    if slot.InheritedMember? {
      return Failure("TypeError: Cannot read properties of undefined (reading 'push')");
    }
    if slot.Undefined? {
      stats := stats[skill := SkillStat(0, [])];
    }
    var stat := stats[skill];
    stats := stats[skill := SkillStat(stat.count + 1, stat.users + [name])];
    r := Success(stats);
  }

  /** One visit of a skill that is not an inherited member name keeps the keys clear of those names. */
  lemma AsWrittenStep(stats: map<string, SkillStat>, done: seq<User>, name: string, skills: seq<string>, j: nat)
    requires j < |skills| && StatsAfter(stats, done, name, skills[..j]) && stats.Keys !! InheritedKeys
    requires skills[j] in stats || skills[j] !in InheritedKeys
    ensures StatsAfter(Bumped(stats, skills[j], name), done, name, skills[..j + 1])
    ensures Bumped(stats, skills[j], name).Keys !! InheritedKeys
  {
    StatsStep(stats, done, name, skills, j);
  }

  /** A skill some user lists that is an inherited member name is shared by the skills and the inherited names. */
  lemma InheritedSkillOccurs(users: seq<User>, i: nat, j: nat)
    requires i < |users| && j < |users[i].skills| && users[i].skills[j] in InheritedKeys
    ensures !(SkillsOf(users) !! InheritedKeys)
  {
    SkillsOfExactly(users, users[i].skills[j]);
  }
}
