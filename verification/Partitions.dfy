/** Partition configurations: every subject has at most one filter in at most one partition. */
module Partitions {
  import opened Subjects
  import opened Decimal

  /** The fields of a consumer configuration that partitioning writes or checks. */
  datatype Config = Config(name: string, durableName: string, filters: seq<string>, group: string)

  /** filters answers for every partition number; hasFilters is false when no function was given. */
  datatype Partitioning = Partitioning(base: Config, count: int, filters: nat -> seq<string>, hasFilters: bool, group: string)

  datatype Refusal = MissingCount | MissingName | NoFilters(partition: nat) | BadFilters(partition: nat)
                   | BadGroup(partition: nat) | Overlapping(partition: nat, owner: nat)

  datatype Outcome = Configs(configs: seq<Config>) | Refused(refusal: Refusal)

  predicate Space(c: char) {
    var code := c as int;
    c == ' ' || 9 <= code <= 13 || code == 0x85 || code == 0xA0 || code == 0x1680 || 0x2000 <= code <= 0x200A
    || code == 0x2028 || code == 0x2029 || code == 0x202F || code == 0x205F || code == 0x3000
  }

  predicate Blank(s: string) {
    forall k :: 0 <= k < |s| ==> Space(s[k])
  }

  predicate ValidFilters(filters: seq<string>) {
    && (forall k :: 0 <= k < |filters| ==> !Blank(filters[k]))
    && forall k, l :: 0 <= k < l < |filters| ==> filters[k] != filters[l]
  }

  predicate GroupChar(c: char) {
    'a' <= c <= 'z' || 'A' <= c <= 'Z' || '0' <= c <= '9' || c == '/' || c == '_' || c == '=' || c == '-'
  }

  predicate ValidGroupName(name: string) {
    1 <= |name| <= 16 && forall k :: 0 <= k < |name| ==> GroupChar(name[k])
  }

  function Suffixed(name: string, partition: nat): string {
    if name == "" then "" else name + "-p" + Itoa(partition)
  }

  function ConfigOf(p: Partitioning, partition: nat): Config {
    Config(Suffixed(p.base.name, partition), Suffixed(p.base.durableName, partition), p.filters(partition), p.group)
  }

  predicate ValidPartition(p: Partitioning, partition: nat) {
    p.filters(partition) != [] && ValidFilters(p.filters(partition)) && ValidGroupName(p.group)
  }

  /** Filter k of partition a and filter l of partition b are different filters and do not overlap. */
  ghost predicate Apart(p: Partitioning, n: nat) {
    forall a: nat, b: nat, k, l ::
      a < n && b < n && 0 <= k < |p.filters(a)| && 0 <= l < |p.filters(b)| && (a, k) != (b, l)
      ==> !Overlap(p.filters(a)[k], p.filters(b)[l])
  }

  ghost predicate Partitioned(p: Partitioning) {
    && p.count >= 1 && p.hasFilters && NameOf(p.base) != ""
    && (forall partition: nat :: partition < p.count ==> ValidPartition(p, partition))
    && Apart(p, p.count)
  }

  lemma {:induction false} OverlapCommutes(left: seq<string>, right: seq<string>)
    ensures TokensOverlap(left, right) == TokensOverlap(right, left)
  {
    if left != [] && right != [] {
      OverlapCommutes(left[1..], right[1..]);
    }
  }

  /** owners holds the filters of the first n partitions and the first m filters of partition n. */
  ghost predicate Owned(p: Partitioning, owners: map<string, nat>, n: nat, m: nat) {
    && (forall a: nat, k: nat :: (a < n && k < |p.filters(a)|) || (a == n && k < m && k < |p.filters(n)|) ==>
          p.filters(a)[k] in owners)
    && (forall filter :: filter in owners ==>
          && ((owners[filter] < n && filter in p.filters(owners[filter]))
              || (owners[filter] == n && m <= |p.filters(n)| && filter in p.filters(n)[..m])))
  }

  /** No two of the owned filters overlap. */
  ghost predicate OwnedApart(p: Partitioning, n: nat, m: nat) {
    forall a: nat, b: nat, k, l ::
      0 <= k < |p.filters(a)| && 0 <= l < |p.filters(b)| && (a, k) != (b, l)
      && (a < n || (a == n && k < m)) && (b < n || (b == n && l < m))
      ==> !Overlap(p.filters(a)[k], p.filters(b)[l])
  }

  /** Some filter of one partition overlaps one of the other. */
  ghost predicate Collide(p: Partitioning, a: nat, b: nat) {
    exists f, g :: f in p.filters(a) && g in p.filters(b) && Overlap(f, g)
  }

  method CheckOverlap(p: Partitioning, owners: map<string, nat>, partition: nat)
    returns (taken: map<string, nat>, refusal: set<Refusal>)
    requires Owned(p, owners, partition, 0) && OwnedApart(p, partition, 0)
    ensures |refusal| <= 1
    ensures refusal == {} <==> OwnedApart(p, partition, |p.filters(partition)|)
    ensures refusal == {} ==> Owned(p, taken, partition, |p.filters(partition)|)
    ensures forall r :: r in refusal ==>
      && r.Overlapping? && r.partition == partition
      && r.owner <= partition && Collide(p, partition, r.owner)
  {
    hide Owned, OwnedApart, Overlap;
    var filters := p.filters(partition);
    taken, refusal := owners, {};
    var m := 0;
    while m < |filters|
      invariant 0 <= m <= |filters|
      invariant Owned(p, taken, partition, m) && OwnedApart(p, partition, m)
    {
      var filter := filters[m];
      var left := taken.Keys;
      while left != {}
        invariant left <= taken.Keys
        invariant forall owned :: owned in taken && owned !in left ==> !Overlap(filter, owned)
        decreases left
      {
        var owned :| owned in left;
        var overlap := SubjectsOverlap(filter, owned);
        if overlap {
          OverlapRefutes(p, taken, partition, m, owned);
          return taken, {Overlapping(partition, taken[owned])};
        }
        left := left - {owned};
      }
      NextApart(p, taken, partition, m);
      taken := taken[filter := partition];
      m := m + 1;
    }
  }

  lemma OverlapRefutes(p: Partitioning, owners: map<string, nat>, n: nat, m: nat, owned: string)
    requires Owned(p, owners, n, m) && m < |p.filters(n)| && owned in owners && Overlap(p.filters(n)[m], owned)
    ensures !OwnedApart(p, n, |p.filters(n)|)
    ensures owners[owned] <= n && owned in p.filters(owners[owned])
  {
    var b := owners[owned];
    if b < n {
      var l :| 0 <= l < |p.filters(b)| && p.filters(b)[l] == owned;
      assert (n, m) != (b, l);
    } else {
      var l :| 0 <= l < m && p.filters(n)[..m][l] == owned;
      assert p.filters(n)[l] == owned && (n, m) != (n, l);
    }
  }

  lemma NextApart(p: Partitioning, owners: map<string, nat>, n: nat, m: nat)
    requires Owned(p, owners, n, m) && m < |p.filters(n)| && OwnedApart(p, n, m)
    requires forall owned :: owned in owners ==> !Overlap(p.filters(n)[m], owned)
    ensures OwnedApart(p, n, m + 1)
    ensures Owned(p, owners[p.filters(n)[m] := n], n, m + 1)
  {
    var filter := p.filters(n)[m];
    forall a: nat, b: nat, k, l |
      0 <= k < |p.filters(a)| && 0 <= l < |p.filters(b)| && (a, k) != (b, l)
      && (a < n || (a == n && k < m + 1)) && (b < n || (b == n && l < m + 1))
      ensures !Overlap(p.filters(a)[k], p.filters(b)[l])
    {
      if (a, k) == (n, m) {
        assert p.filters(b)[l] in owners;
      } else if (b, l) == (n, m) {
        assert p.filters(a)[k] in owners;
        OverlapCommutes(Split(p.filters(a)[k]), Split(filter));
      }
    }
    assert p.filters(n)[..m + 1] == p.filters(n)[..m] + [filter];
  }

  lemma NextPartition(p: Partitioning, owners: map<string, nat>, n: nat)
    requires Owned(p, owners, n, |p.filters(n)|) && OwnedApart(p, n, |p.filters(n)|)
    ensures Owned(p, owners, n + 1, 0) && OwnedApart(p, n + 1, 0)
  {
    assert p.filters(n)[..|p.filters(n)|] == p.filters(n);
  }

  /** Why a partitioning is refused: the first of the checks that fails, for the first partition that fails one. */
  ghost predicate Refuses(p: Partitioning, refusal: Refusal) {
    match refusal
    case MissingCount => p.count < 1 || !p.hasFilters
    case MissingName => p.count >= 1 && p.hasFilters && p.base.name == "" && p.base.durableName == ""
    case NoFilters(n) => FailsFirst(p, n) && p.filters(n) == []
    case BadFilters(n) => FailsFirst(p, n) && p.filters(n) != [] && !ValidFilters(p.filters(n))
    case BadGroup(n) => FailsFirst(p, n) && p.filters(n) != [] && ValidFilters(p.filters(n)) && !ValidGroupName(p.group)
    case Overlapping(n, owner) => FailsFirst(p, n) && ValidPartition(p, n) && owner <= n && Collide(p, n, owner)
  }

  ghost predicate FailsFirst(p: Partitioning, n: nat) {
    p.hasFilters && n < p.count && AllValid(p, n)
  }

  ghost predicate AllValid(p: Partitioning, n: nat) {
    forall m: nat :: m < n ==> ValidPartition(p, m)
  }

  /** The configurations, if the filters of all partitions are valid and do not overlap. */
  method PartitionConfigs(p: Partitioning) returns (outcome: Outcome)
    ensures outcome.Configs? <==> Partitioned(p)
    ensures outcome.Configs? ==>
      |outcome.configs| == p.count && forall n :: 0 <= n < p.count ==> outcome.configs[n] == ConfigOf(p, n)
    ensures outcome.Refused? ==> Refuses(p, outcome.refusal)
  {
    hide Owned, OwnedApart, Apart, Collide, ValidFilters, ValidGroupName, ValidPartition, Partitioned, NameOf, Suffixed,
        Refuses, AllValid;
    EarlyRefusal(p);
    if p.count < 1 || !p.hasFilters {
      return Refused(MissingCount);
    }
    if NameOf(p.base) == "" {
      return Refused(MissingName);
    }
    NothingOwned(p);
    var configs: seq<Config> := [];
    var owners: map<string, nat> := map[];
    var n: nat := 0;
    while n < p.count
      invariant n <= p.count && |configs| == n && AllValid(p, n)
      invariant forall k :: 0 <= k < n ==> configs[k] == ConfigOf(p, k)
      invariant Owned(p, owners, n, 0) && OwnedApart(p, n, 0)
    {
      var config := ConfigOf(p, n);
      ChecksOf(p, n);
      PartitionRefusal(p, n);
      if config.filters == [] {
        return Refused(NoFilters(n));
      }
      if !ValidFilters(config.filters) {
        return Refused(BadFilters(n));
      }
      if !ValidGroupName(config.group) {
        return Refused(BadGroup(n));
      }
      var refusal;
      owners, refusal := CheckOverlap(p, owners, n);
      if refusal != {} {
        var r :| r in refusal;
        OverlapRefusal(p, n, r);
        return Refused(r);
      }
      NextPartition(p, owners, n);
      configs := configs + [config];
      n := n + 1;
    }
    AllApart(p, n);
    AllPartitioned(p);
    return Configs(configs);
  }

  lemma EarlyRefusal(p: Partitioning)
    ensures AllValid(p, 0)
    ensures p.count < 1 || !p.hasFilters ==> Refuses(p, MissingCount) && !Partitioned(p)
    ensures p.count >= 1 && p.hasFilters && NameOf(p.base) == "" ==> Refuses(p, MissingName) && !Partitioned(p)
  {
  }

  lemma PartitionRefusal(p: Partitioning, n: nat)
    requires p.hasFilters && n < p.count && AllValid(p, n)
    ensures p.filters(n) == [] ==> Refuses(p, NoFilters(n)) && !Partitioned(p)
    ensures p.filters(n) != [] && !ValidFilters(p.filters(n)) ==> Refuses(p, BadFilters(n)) && !Partitioned(p)
    ensures p.filters(n) != [] && ValidFilters(p.filters(n)) && !ValidGroupName(p.group) ==>
      Refuses(p, BadGroup(n)) && !Partitioned(p)
    ensures ValidPartition(p, n) ==> AllValid(p, n + 1)
  {
    hide ValidFilters, ValidGroupName, Apart, NameOf;
    assert !ValidPartition(p, n) ==> !Partitioned(p) by {
      if !ValidPartition(p, n) { NotPartitioned(p, n); }
    }
  }

  lemma OverlapRefusal(p: Partitioning, n: nat, r: Refusal)
    requires p.hasFilters && n < p.count && AllValid(p, n) && ValidPartition(p, n) && !OwnedApart(p, n, |p.filters(n)|)
    requires r.Overlapping? && r.partition == n && r.owner <= n && Collide(p, n, r.owner)
    ensures Refuses(p, r) && !Partitioned(p)
  {
    hide ValidPartition, Apart, Collide, OwnedApart;
    NotApart(p, n);
    NotPartitioned(p, n);
  }

  lemma NothingOwned(p: Partitioning)
    ensures Owned(p, map[], 0, 0) && OwnedApart(p, 0, 0)
  {
  }

  lemma AllApart(p: Partitioning, n: nat)
    requires OwnedApart(p, n, 0)
    ensures Apart(p, n)
  {
  }

  lemma ChecksOf(p: Partitioning, n: nat)
    ensures var config := ConfigOf(p, n);
      ValidPartition(p, n) <==> config.filters != [] && ValidFilters(config.filters) && ValidGroupName(config.group)
  {
  }

  lemma AllPartitioned(p: Partitioning)
    requires p.count >= 1 && p.hasFilters && NameOf(p.base) != "" && Apart(p, p.count)
    requires AllValid(p, p.count)
    ensures Partitioned(p)
  {
  }

  lemma NotPartitioned(p: Partitioning, n: nat)
    requires n < p.count && (!ValidPartition(p, n) || !Apart(p, p.count))
    ensures !Partitioned(p)
  {
  }

  lemma NotApart(p: Partitioning, n: nat)
    requires n < p.count && !OwnedApart(p, n, |p.filters(n)|)
    ensures !Apart(p, p.count)
  {
    var a: nat, b: nat, k, l :|
      0 <= k < |p.filters(a)| && 0 <= l < |p.filters(b)| && (a, k) != (b, l)
      && (a < n || (a == n && k < |p.filters(n)|)) && (b < n || (b == n && l < |p.filters(n)|))
      && Overlap(p.filters(a)[k], p.filters(b)[l]);
  }

  /** After a successful partitioning every subject matches at most one filter of at most one partition. */
  lemma SubjectHasOneOwner(p: Partitioning, a: nat, b: nat, k: nat, l: nat, subject: string)
    requires Partitioned(p) && a < p.count && b < p.count && k < |p.filters(a)| && l < |p.filters(b)|
    requires Matches(p.filters(a)[k], subject) && Matches(p.filters(b)[l], subject)
    ensures a == b && k == l
  {
    MatchedOverlap(p.filters(a)[k], p.filters(b)[l], subject);
    assert (a, k) == (b, l);
  }

  /** The check refuses nothing more: filters pass it if and only if no concrete subject matches two of them. */
  lemma ApartIffNoSharedSubject(p: Partitioning)
    requires p.count >= 0
    ensures Apart(p, p.count) <==>
      forall a: nat, b: nat, k, l, subject: string ::
        a < p.count && b < p.count && 0 <= k < |p.filters(a)| && 0 <= l < |p.filters(b)| && (a, k) != (b, l) && Concrete(subject)
        ==> !(Matches(p.filters(a)[k], subject) && Matches(p.filters(b)[l], subject))
  {
    forall a: nat, b: nat, k, l | a < p.count && b < p.count && 0 <= k < |p.filters(a)| && 0 <= l < |p.filters(b)|
      ensures Overlap(p.filters(a)[k], p.filters(b)[l]) <==>
        exists s: string :: Concrete(s) && Matches(p.filters(a)[k], s) && Matches(p.filters(b)[l], s)
    {
      OverlapIsExact(p.filters(a)[k], p.filters(b)[l]);
    }
  }

  lemma SuffixedApart(name: string, a: nat, b: nat)
    requires a != b && name != ""
    ensures Suffixed(name, a) != Suffixed(name, b)
  {
    if Itoa(a) == Itoa(b) {
      ItoaInjective(a, b);
    }
    var n := |name + "-p"|;
    assert Suffixed(name, a)[n..] == Itoa(a) && Suffixed(name, b)[n..] == Itoa(b);
  }

  /** The name a consumer is known by: its durable name, or its name. */
  function NameOf(config: Config): string {
    if config.durableName != "" then config.durableName else config.name
  }

  /** The consumers of two partitions never share a name, durable or not: every name that the base gives is
      different in each, and so is the one the consumer is known by. */
  lemma NamesApart(p: Partitioning, a: nat, b: nat)
    requires a != b
    ensures p.base.name != "" ==> ConfigOf(p, a).name != ConfigOf(p, b).name
    ensures p.base.durableName != "" ==> ConfigOf(p, a).durableName != ConfigOf(p, b).durableName
    ensures NameOf(p.base) != "" ==> NameOf(ConfigOf(p, a)) != NameOf(ConfigOf(p, b))
  {
    hide Suffixed;
    if p.base.name != "" {
      SuffixedApart(p.base.name, a, b);
    }
    if p.base.durableName != "" {
      SuffixedApart(p.base.durableName, a, b);
    }
    assert NameOf(ConfigOf(p, a)) == Suffixed(NameOf(p.base), a) && NameOf(ConfigOf(p, b)) == Suffixed(NameOf(p.base), b) by {
      NameOfSuffixed(p, a);
      NameOfSuffixed(p, b);
    }
  }

  lemma NameOfSuffixed(p: Partitioning, n: nat)
    ensures NameOf(ConfigOf(p, n)) == Suffixed(NameOf(p.base), n)
  {
  }

  /** The configuration of a partition receives the subjects of all filters of the partition and nothing else, is pinned to
      the group, and has a name exactly where the base has one, which is that name with the number of the partition. */
  lemma ConfigCarries(p: Partitioning, n: nat, subject: string)
    ensures var config := ConfigOf(p, n);
      && config.group == p.group
      && (MatchesSome(config.filters, subject) <==> MatchesSome(p.filters(n), subject)) && |config.filters| == |p.filters(n)|
      && config.name == (if p.base.name == "" then "" else p.base.name + "-p" + Itoa(n))
      && config.durableName == (if p.base.durableName == "" then "" else p.base.durableName + "-p" + Itoa(n))
  {
    hide Itoa;
  }

  ghost predicate MatchesSome(filters: seq<string>, subject: string) {
    exists k :: 0 <= k < |filters| && Matches(filters[k], subject)
  }

  /** No message is lost or doubled between the partitions: of the configurations that were accepted exactly one
      receives a subject that some filter was given for. */
  lemma AcceptedConfigsPartition(p: Partitioning, configs: seq<Config>, n: nat, subject: string)
    requires Partitioned(p) && |configs| == p.count && forall m :: 0 <= m < p.count ==> configs[m] == ConfigOf(p, m)
    requires n < p.count && MatchesSome(p.filters(n), subject)
    ensures forall m: nat :: m < p.count ==> (MatchesSome(configs[m].filters, subject) <==> m == n)
  {
    hide Partitioned, Matches;
    ConfigCarries(p, n, subject);
    forall m: nat | m < p.count && MatchesSome(configs[m].filters, subject) ensures m == n {
      ConfigCarries(p, m, subject);
      var k :| 0 <= k < |p.filters(n)| && Matches(p.filters(n)[k], subject);
      var l :| 0 <= l < |p.filters(m)| && Matches(p.filters(m)[l], subject);
      SubjectHasOneOwner(p, n, m, k, l, subject);
    }
  }

  ghost predicate HasText(s: string) {
    exists m :: 0 <= m < |s| && !Space(s[m])
  }

  /** Filters are valid when each has some character that is not white space, and no two are equal. */
  lemma FiltersValidIff(filters: seq<string>)
    ensures ValidFilters(filters) <==>
      && (forall k :: 0 <= k < |filters| ==> HasText(filters[k]))
      && forall k, l :: 0 <= k < |filters| && 0 <= l < |filters| && filters[k] == filters[l] ==> k == l
  {
    hide Space;
    assert forall k :: 0 <= k < |filters| ==> (!Blank(filters[k]) <==> HasText(filters[k]));
    hide Blank, HasText;
    if ValidFilters(filters) {
      forall k, l | 0 <= k < |filters| && 0 <= l < |filters| && filters[k] == filters[l] ensures k == l {
        assert !(k < l) && !(l < k);
      }
    }
  }

  /** Pinned groups have one to sixteen letters, digits and a few signs, and no dot, blank or wildcard. */
  lemma GroupNames()
    ensures ValidGroupName("orders/EU-1_a=b") && !ValidGroupName("") && !ValidGroupName("12345678901234567")
    ensures forall name: string :: '.' in name || ' ' in name || '*' in name || '>' in name ==> !ValidGroupName(name)
  {
  }
}
