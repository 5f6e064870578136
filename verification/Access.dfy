/** URL authorization: an ordered table of ant patterns whose first match decides. */
module Access {
  import opened Common

  // ----- Paths, patterns, and how they match -----

  /** The number of characters before the first `c`. */
  function Before(s: string, c: char): (k: nat)
    ensures k <= |s| && (k < |s| ==> s[k] == c) && c !in s[..k]
  {
    if s == "" || s[0] == c then 0 else 1 + Before(s[1..], c)
  }

  /** The parts between slashes that are not empty. */
  function Segments(s: string): seq<string> {
    var k := Before(s, '/');
    var rest := if k < |s| then Segments(s[k + 1..]) else [];
    if k == 0 then rest else [s[..k]] + rest
  }

  /** One segment of a pattern, in which `*` stands for any characters. */
  predicate MatchSegment(pattern: string, segment: string)
    decreases |pattern|
  {
    var k := Before(pattern, '*');
    if k == |pattern| then pattern == segment
    else
      && pattern[..k] <= segment
      && exists i :: k <= i <= |segment| && MatchSegment(pattern[k + 1..], segment[i..])
  }

  predicate MatchSegments(pattern: seq<string>, path: seq<string>)
    decreases |pattern|
  {
    if pattern == [] then path == []
    else if pattern[0] == "**" then exists skip :: 0 <= skip <= |path| && MatchSegments(pattern[1..], path[skip..])
    else path != [] && MatchSegment(pattern[0], path[0]) && MatchSegments(pattern[1..], path[1..])
  }

  predicate AntMatch(pattern: string, path: string) {
    MatchSegments(Segments(pattern), Segments(path))
  }

  // ----- The rules -----

  datatype Role = Admin | Readonly | Anonymous | NonAdminUi | WebTak | OtherRole(name: Name)

  datatype Rule = Rule(verb: Option<string>, pattern: string, access: seq<Role>)

  function Lower(c: char): char {
    if 'A' <= c <= 'Z' then c - 'A' + 'a' else c
  }

  predicate SameIgnoringCase(a: string, b: string) {
    |a| == |b| && forall i :: 0 <= i < |a| ==> Lower(a[i]) == Lower(b[i])
  }

  predicate Applies(rule: Rule, verb: string, path: string) {
    (rule.verb.None? || SameIgnoringCase(rule.verb.value, verb)) && AntMatch(rule.pattern, path)
  }

  /** The first rule from `start` on that applies, or the number of rules. */
  function DecidingFrom(rules: seq<Rule>, start: nat, verb: string, path: string): (k: nat)
    requires start <= |rules|
    ensures start <= k <= |rules| && (k < |rules| ==> Applies(rules[k], verb, path))
    ensures forall i :: start <= i < k ==> !Applies(rules[i], verb, path)
    decreases |rules| - start
  {
    if start == |rules| || Applies(rules[start], verb, path) then start
    else DecidingFrom(rules, start + 1, verb, path)
  }

  /** The first rule that applies, or the number of rules. */
  function Deciding(rules: seq<Rule>, verb: string, path: string): (k: nat)
    ensures k <= |rules| && (k < |rules| ==> Applies(rules[k], verb, path))
    ensures forall i :: 0 <= i < k ==> !Applies(rules[i], verb, path)
  {
    DecidingFrom(rules, 0, verb, path)
  }

  /** The roles of a user on the Marti API port. */
  function RolesOf(admin: bool): seq<Role> {
    if admin then [Admin, Readonly, Anonymous, NonAdminUi, WebTak] else [Anonymous, NonAdminUi, WebTak]
  }

  /** One of the roles that have access is held. */
  predicate Grants(access: seq<Role>, admin: bool) {
    exists role :: role in access && role in RolesOf(admin)
  }

  const OWN_ADMIN_API := "/Marti/api/admin/**"

  predicate Allowed(rules: seq<Rule>, verb: string, path: string, admin: bool) {
    || AntMatch(OWN_ADMIN_API, path)
    || var k := Deciding(rules, verb, path);
       k == |rules| || Grants(rules[k].access, admin)
  }

  // ----- What matching means -----

  /** `cuts` divides `text` among the parts of `pattern`: a wild part takes any stretch of it,
      any other part one fitting element. */
  ghost predicate Aligned<P, T>(wild: P -> bool, fits: (P, T) -> bool, pattern: seq<P>, text: seq<T>, cuts: seq<nat>) {
    && |cuts| == |pattern| + 1 && cuts[0] == 0 && cuts[|pattern|] == |text|
    && forall k :: 0 <= k < |pattern| ==> PartAligned(wild, fits, pattern, text, cuts, k)
  }

  ghost predicate PartAligned<P, T>(wild: P -> bool, fits: (P, T) -> bool, pattern: seq<P>, text: seq<T>,
                                    cuts: seq<nat>, k: int)
    requires |cuts| == |pattern| + 1 && 0 <= k < |pattern|
  {
    && cuts[k] <= cuts[k + 1] <= |text|
    && (!wild(pattern[k]) ==> cuts[k + 1] == cuts[k] + 1 && fits(pattern[k], text[cuts[k]]))
  }

  ghost predicate HasAlignment<P, T>(wild: P -> bool, fits: (P, T) -> bool, pattern: seq<P>, text: seq<T>) {
    exists cuts :: Aligned(wild, fits, pattern, text, cuts)
  }

  /** A pattern fits if its first part takes a stretch and the rest fits what is left. */
  lemma {:induction false} AlignFirst<P, T>(wild: P -> bool, fits: (P, T) -> bool, pattern: seq<P>, text: seq<T>, n: nat)
    requires pattern != [] && n <= |text| && HasAlignment(wild, fits, pattern[1..], text[n..])
    requires !wild(pattern[0]) ==> n == 1 && fits(pattern[0], text[0])
    ensures HasAlignment(wild, fits, pattern, text)
  {
    var rest :| Aligned(wild, fits, pattern[1..], text[n..], rest);
    var cuts := [0] + seq(|rest|, k requires 0 <= k < |rest| => rest[k] + n);
    forall k | 0 <= k < |pattern|
      ensures PartAligned(wild, fits, pattern, text, cuts, k)
    {
      if k > 0 {
        assert PartAligned(wild, fits, pattern[1..], text[n..], rest, k - 1);
      }
    }
    assert Aligned(wild, fits, pattern, text, cuts);
  }

  lemma {:induction false} CutsMonotone<P, T>(wild: P -> bool, fits: (P, T) -> bool, pattern: seq<P>, text: seq<T>,
                                              cuts: seq<nat>, i: nat, j: nat)
    requires Aligned(wild, fits, pattern, text, cuts) && i <= j <= |pattern|
    ensures cuts[i] <= cuts[j] <= |text|
    decreases j - i
  {
    if i < j {
      CutsMonotone(wild, fits, pattern, text, cuts, i, j - 1);
      assert PartAligned(wild, fits, pattern, text, cuts, j - 1);
    } else if i < |pattern| {
      assert PartAligned(wild, fits, pattern, text, cuts, i);
    }
  }

  /** The converse: what an alignment gives to the first part. */
  lemma {:induction false} AlignRest<P, T>(wild: P -> bool, fits: (P, T) -> bool, pattern: seq<P>, text: seq<T>) returns (n: nat)
    requires pattern != [] && HasAlignment(wild, fits, pattern, text)
    ensures n <= |text| && HasAlignment(wild, fits, pattern[1..], text[n..])
    ensures !wild(pattern[0]) ==> n == 1 && fits(pattern[0], text[0])
  {
    var cuts :| Aligned(wild, fits, pattern, text, cuts);
    assert PartAligned(wild, fits, pattern, text, cuts, 0);
    n := cuts[1];
    forall k | 1 <= k <= |pattern|
      ensures n <= cuts[k]
    {
      CutsMonotone(wild, fits, pattern, text, cuts, 1, k);
    }
    var rest := seq(|pattern|, k requires 0 <= k < |pattern| => cuts[k + 1] - n);
    forall k | 0 <= k < |pattern| - 1
      ensures PartAligned(wild, fits, pattern[1..], text[n..], rest, k)
    {
      assert PartAligned(wild, fits, pattern, text, cuts, k + 1);
    }
    assert Aligned(wild, fits, pattern[1..], text[n..], rest);
  }

  lemma AlignNone<P, T>(wild: P -> bool, fits: (P, T) -> bool, text: seq<T>)
    ensures HasAlignment(wild, fits, [], text) <==> text == []
  {
    if text == [] {
      assert Aligned(wild, fits, [], text, [0]);
    }
  }

  // ----- Segments -----

  predicate IsStar(c: char) {
    c == '*'
  }

  predicate SameChar(p: char, c: char) {
    p == c
  }

  predicate IsDoubleStar(s: string) {
    s == "**"
  }

  /** Dropping a literal start from both sides. */
  lemma {:induction false} AlignLiteral(pattern: string, segment: string, k: nat)
    requires k <= |pattern| && '*' !in pattern[..k]
    ensures HasAlignment(IsStar, SameChar, pattern, segment) <==>
            pattern[..k] <= segment && HasAlignment(IsStar, SameChar, pattern[k..], segment[k..])
    decreases k
  {
    if k == 0 {
      assert pattern[0..] == pattern && segment[0..] == segment;
    } else {
      assert pattern[0] == pattern[..k][0];
      assert pattern[1..][..k - 1] == pattern[..k][1..];
      if HasAlignment(IsStar, SameChar, pattern, segment) {
        var n := AlignRest(IsStar, SameChar, pattern, segment);
        LiteralStep(pattern, segment, k);
        AlignLiteral(pattern[1..], segment[1..], k - 1);
      } else if pattern[..k] <= segment && HasAlignment(IsStar, SameChar, pattern[k..], segment[k..]) {
        LiteralStep(pattern, segment, k);
        AlignLiteral(pattern[1..], segment[1..], k - 1);
        AlignFirst(IsStar, SameChar, pattern, segment, 1);
      }
    }
  }

  lemma LiteralStep(pattern: string, segment: string, k: nat)
    requires 0 < k <= |pattern|
    ensures pattern[..k] <= segment <==> segment != [] && pattern[0] == segment[0] && pattern[1..][..k - 1] <= segment[1..]
    ensures pattern[1..][k - 1..] == pattern[k..]
    ensures k <= |segment| ==> segment[1..][k - 1..] == segment[k..]
  {
  }

  lemma {:induction false} AlignStar(pattern: string, segment: string)
    requires pattern != [] && pattern[0] == '*'
    ensures HasAlignment(IsStar, SameChar, pattern, segment) <==>
            exists n :: 0 <= n <= |segment| && HasAlignment(IsStar, SameChar, pattern[1..], segment[n..])
  {
    if HasAlignment(IsStar, SameChar, pattern, segment) {
      var n := AlignRest(IsStar, SameChar, pattern, segment);
    } else if n :| 0 <= n <= |segment| && HasAlignment(IsStar, SameChar, pattern[1..], segment[n..]) {
      AlignFirst(IsStar, SameChar, pattern, segment, n);
    }
  }

  /** A segment matches exactly if its characters can be divided among those of the pattern. */
  lemma {:induction false} MatchSegmentIff(pattern: string, segment: string)
    ensures MatchSegment(pattern, segment) <==> HasAlignment(IsStar, SameChar, pattern, segment)
    decreases |pattern|
  {
    var k := Before(pattern, '*');
    AlignLiteral(pattern, segment, k);
    if k == |pattern| {
      assert pattern[..k] == pattern && pattern[k..] == [];
      if pattern <= segment {
        AlignNone(IsStar, SameChar, segment[k..]);
      }
    } else if pattern[..k] <= segment {
      AlignStar(pattern[k..], segment[k..]);
      assert pattern[k..][1..] == pattern[k + 1..];
      forall i | k <= i <= |segment|
        ensures MatchSegment(pattern[k + 1..], segment[i..])
           <==> HasAlignment(IsStar, SameChar, pattern[k + 1..], segment[i..])
      {
        MatchSegmentIff(pattern[k + 1..], segment[i..]);
      }
      StarIff(pattern[k + 1..], segment, k);
    }
  }

  lemma {:induction false} StarIff(rest: string, segment: string, k: nat)
    requires k <= |segment|
    requires forall i :: k <= i <= |segment| ==>
      (MatchSegment(rest, segment[i..]) <==> HasAlignment(IsStar, SameChar, rest, segment[i..]))
    ensures (exists i :: k <= i <= |segment| && MatchSegment(rest, segment[i..])) <==>
            exists n :: 0 <= n <= |segment[k..]| && HasAlignment(IsStar, SameChar, rest, segment[k..][n..])
  {
    if i :| k <= i <= |segment| && MatchSegment(rest, segment[i..]) {
      assert segment[k..][i - k..] == segment[i..];
    }
    if n :| 0 <= n <= |segment[k..]| && HasAlignment(IsStar, SameChar, rest, segment[k..][n..]) {
      assert segment[k..][n..] == segment[k + n..];
      assert MatchSegment(rest, segment[k + n..]);
    }
  }

  // ----- Paths -----

  /** A path matches exactly if its segments can be divided among those of the pattern. */
  lemma {:induction false} MatchSegmentsIff(pattern: seq<string>, path: seq<string>)
    ensures MatchSegments(pattern, path) <==> HasAlignment(IsDoubleStar, MatchSegment, pattern, path)
    decreases |pattern|
  {
    if pattern == [] {
      AlignNone(IsDoubleStar, MatchSegment, path);
    } else {
      if MatchSegments(pattern, path) {
        var n := 1;
        if pattern[0] == "**" {
          n :| 0 <= n <= |path| && MatchSegments(pattern[1..], path[n..]);
        }
        MatchSegmentsIff(pattern[1..], path[n..]);
        AlignFirst(IsDoubleStar, MatchSegment, pattern, path, n);
      }
      if HasAlignment(IsDoubleStar, MatchSegment, pattern, path) {
        var n := AlignRest(IsDoubleStar, MatchSegment, pattern, path);
        MatchSegmentsIff(pattern[1..], path[n..]);
      }
    }
  }

  /** Whatever matches a pattern that starts with `front` matches `front` followed by `**`. */
  lemma {:induction false} Covers(front: seq<string>, rest: seq<string>, path: seq<string>)
    requires MatchSegments(front + rest, path)
    ensures MatchSegments(front + ["**"], path)
  {
    var long, short := front + rest, front + ["**"];
    MatchSegmentsIff(long, path);
    var cuts :| Aligned(IsDoubleStar, MatchSegment, long, path, cuts);
    var fewer := cuts[..|front| + 1] + [|path|];
    CutsMonotone(IsDoubleStar, MatchSegment, long, path, cuts, |front|, |long|);
    forall k | 0 <= k < |short|
      ensures PartAligned(IsDoubleStar, MatchSegment, short, path, fewer, k)
    {
      if k < |front| {
        assert PartAligned(IsDoubleStar, MatchSegment, long, path, cuts, k);
      }
    }
    assert Aligned(IsDoubleStar, MatchSegment, short, path, fewer);
    MatchSegmentsIff(short, path);
  }

  lemma {:induction false} CoversPrefix(front: seq<string>, pattern: seq<string>, path: seq<string>)
    requires front <= pattern && MatchSegments(pattern, path)
    ensures MatchSegments(front + ["**"], path)
  {
    assert pattern == front + pattern[|front|..];
    Covers(front, pattern[|front|..], path);
  }

  function Piece(s: string): seq<string> {
    if s == "" then [] else [s]
  }

  lemma {:induction false} SegmentsAt(s: string, k: nat)
    requires k < |s| && s[k] == '/' && '/' !in s[..k]
    ensures Segments(s) == Piece(s[..k]) + Segments(s[k + 1..])
  {
    BeforeIs(s, k, '/');
  }

  lemma {:induction false} SegmentsNone(s: string)
    requires '/' !in s
    ensures Segments(s) == Piece(s)
  {
    var k := Before(s, '/');
    assert k == |s| && s[..k] == s;
  }

  lemma {:induction false} JoinedAt(a: string, b: string, k: nat)
    requires k <= |a|
    ensures var s := a + "/" + b;
      && s[..k] == a[..k]
      && (k < |a| ==> s[k] == a[k] && s[k + 1..] == a[k + 1..] + "/" + b)
      && (k == |a| ==> s[k] == '/' && s[k + 1..] == b)
  {
  }

  lemma {:induction false} SegmentsJoin(a: string, b: string)
    ensures Segments(a + "/" + b) == Segments(a) + Segments(b)
    decreases |a|
  {
    var k := Before(a, '/');
    JoinedAt(a, b, k);
    SegmentsAt(a + "/" + b, k);
    if k == |a| {
      assert a[..k] == a;
      SegmentsNone(a);
    } else {
      SegmentsAt(a, k);
      SegmentsJoin(a[k + 1..], b);
      Regrouped(Piece(a[..k]), Segments(a[k + 1..]), Segments(b));
    }
  }

  lemma {:induction false} Regrouped(a: seq<string>, b: seq<string>, c: seq<string>)
    ensures a + b + c == a + (b + c)
  {
  }

  lemma {:induction false} BeforeIs(s: string, k: nat, c: char)
    requires k < |s| && s[k] == c && c !in s[..k]
    ensures Before(s, c) == k
  {
  }

  // ----- Shadowing -----

  lemma {:induction false} BlanketSegments(front: string)
    ensures Segments(front + "/" + "**") == Segments(front) + ["**"]
  {
    SegmentsJoin(front, "**");
    SegmentsNone("**");
  }

  /** `rule` is for `front` or something under it. */
  predicate Under(front: string, rule: Rule) {
    Segments(front) <= Segments(rule.pattern)
  }

  /** A pattern for everything under `front` matches wherever one for something under it does. */
  lemma {:induction false} Shadows(front: string, rule: Rule, path: string)
    requires Under(front, rule) && AntMatch(rule.pattern, path)
    ensures AntMatch(front + "/" + "**", path)
  {
    BlanketSegments(front);
    CoversPrefix(Segments(front), Segments(rule.pattern), Segments(path));
  }

  /** The rules without those marked. */
  ghost function Without(rules: seq<Rule>, marked: Rule -> bool): seq<Rule> {
    if rules == [] then []
    else if marked(rules[0]) then Without(rules[1..], marked)
    else [rules[0]] + Without(rules[1..], marked)
  }

  /** What a table says: the access of the rule that decides, if any. */
  ghost function Verdict(rules: seq<Rule>, verb: string, path: string): Option<seq<Role>> {
    var k := Deciding(rules, verb, path);
    if k < |rules| then Some(rules[k].access) else None
  }

  lemma {:induction false} DecidingIs(rules: seq<Rule>, verb: string, path: string, k: nat)
    requires k <= |rules| && (k < |rules| ==> Applies(rules[k], verb, path))
    requires forall i :: 0 <= i < k ==> !Applies(rules[i], verb, path)
    ensures Deciding(rules, verb, path) == k
  {
  }

  lemma {:induction false} VerdictHead(rules: seq<Rule>, verb: string, path: string)
    requires rules != []
    ensures Verdict(rules, verb, path) ==
            if Applies(rules[0], verb, path) then Some(rules[0].access) else Verdict(rules[1..], verb, path)
  {
    if Applies(rules[0], verb, path) {
      DecidingIs(rules, verb, path, 0);
    } else {
      var k := Deciding(rules[1..], verb, path);
      forall i | 0 <= i < k + 1
        ensures !Applies(rules[i], verb, path)
      {
        assert i > 0 ==> rules[i] == rules[1..][i - 1];
      }
      DecidingIs(rules, verb, path, k + 1);
    }
  }

  lemma {:induction false} DecidingConcat(a: seq<Rule>, b: seq<Rule>, verb: string, path: string)
    ensures var k := Deciding(a, verb, path);
      Deciding(a + b, verb, path) == if k < |a| then k else |a| + Deciding(b, verb, path)
  {
    var k, j := Deciding(a, verb, path), Deciding(b, verb, path);
    var n := if k < |a| then k else |a| + j;
    forall i | 0 <= i < n
      ensures !Applies((a + b)[i], verb, path)
    {
      if i < |a| {
        assert (a + b)[i] == a[i];
      } else {
        assert (a + b)[i] == b[i - |a|];
      }
    }
    DecidingIs(a + b, verb, path, n);
  }

  lemma {:induction false} VerdictConcat(a: seq<Rule>, b: seq<Rule>, verb: string, path: string)
    ensures Verdict(a + b, verb, path) ==
            if Verdict(a, verb, path).Some? then Verdict(a, verb, path) else Verdict(b, verb, path)
  {
    DecidingConcat(a, b, verb, path);
  }

  /** Rules that do not apply can go. */
  lemma {:induction false} WithoutInapplicable(rules: seq<Rule>, marked: Rule -> bool, verb: string, path: string)
    requires forall r :: r in rules && marked(r) ==> !Applies(r, verb, path)
    ensures Verdict(Without(rules, marked), verb, path) == Verdict(rules, verb, path)
  {
    if rules != [] {
      WithoutInapplicable(rules[1..], marked, verb, path);
      VerdictHead(rules, verb, path);
      assert rules[0] in rules;
      if !marked(rules[0]) {
        VerdictHead(Without(rules, marked), verb, path);
        assert Without(rules, marked)[1..] == Without(rules[1..], marked);
      }
    }
  }

  ghost predicate IsBlanket(rule: Rule, front: string) {
    rule.verb.None? && rule.pattern == front + "/" + "**"
  }

  /** Behind a rule for all methods and everything under `front`, any choice of rules for
      `front` and what is under it can be deleted: no verdict changes, for any method and path. */
  lemma {:induction false} ShadowedRulesAreDead(before: seq<Rule>, blanket: Rule, later: seq<Rule>, front: string,
                                                marked: Rule -> bool, verb: string, path: string)
    requires IsBlanket(blanket, front) && forall r :: marked(r) ==> Under(front, r)
    ensures Verdict(before + ([blanket] + Without(later, marked)), verb, path) ==
            Verdict(before + ([blanket] + later), verb, path)
  {
    var kept := Without(later, marked);
    VerdictConcat(before, [blanket] + kept, verb, path);
    VerdictConcat(before, [blanket] + later, verb, path);
    VerdictHead([blanket] + kept, verb, path);
    VerdictHead([blanket] + later, verb, path);
    assert ([blanket] + kept)[1..] == kept && ([blanket] + later)[1..] == later;
    if !Applies(blanket, verb, path) {
      forall r | r in later && marked(r)
        ensures !Applies(r, verb, path)
      {
        if Applies(r, verb, path) {
          Shadows(front, r, path);
        }
      }
      WithoutInapplicable(later, marked, verb, path);
    }
  }

  lemma {:induction false} AllowedByVerdict(rules: seq<Rule>, verb: string, path: string, admin: bool)
    ensures Allowed(rules, verb, path, admin) <==>
      || AntMatch(OWN_ADMIN_API, path)
      || Verdict(rules, verb, path).None?
      || Grants(Verdict(rules, verb, path).value, admin)
  {
  }

  /** So deleting them changes nothing for anyone. */
  lemma {:induction false} DeletingShadowedRules(before: seq<Rule>, blanket: Rule, later: seq<Rule>, front: string,
                                                 marked: Rule -> bool, verb: string, path: string, admin: bool)
    requires IsBlanket(blanket, front) && forall r :: marked(r) ==> Under(front, r)
    ensures Allowed(before + ([blanket] + Without(later, marked)), verb, path, admin) <==>
            Allowed(before + ([blanket] + later), verb, path, admin)
  {
    ShadowedRulesAreDead(before, blanket, later, front, marked, verb, path);
    AllowedByVerdict(before + ([blanket] + Without(later, marked)), verb, path, admin);
    AllowedByVerdict(before + ([blanket] + later), verb, path, admin);
  }

  const EVERYTHING := Rule(None, "/**", [Anonymous])
  const DOCUMENTATION := Rule(None, "/Marti/documentation/**", [Admin])

  lemma {:induction false} LastShadowed(before: seq<Rule>, blanket: Rule, last: Rule, front: string,
                                        verb: string, path: string, admin: bool)
    requires IsBlanket(blanket, front) && Under(front, last)
    ensures Allowed(before + [blanket, last], verb, path, admin) <==> Allowed(before + [blanket], verb, path, admin)
  {
    var marked := (r: Rule) => r == last;
    assert [last][1..] == [] && Without([last], marked) == [];
    DeletingShadowedRules(before, blanket, [last], front, marked, verb, path, admin);
    assert [blanket] + [last] == [blanket, last] && [blanket] + [] == [blanket];
  }

  lemma {:induction false} UnderRoot(rule: Rule)
    ensures Under("", rule)
  {
    RootIsBlanket();
  }

  /** In the table itself the last rule never decides: the one before it is for everything. */
  lemma {:induction false} LastRuleIsDead(before: seq<Rule>, verb: string, path: string, admin: bool)
    ensures Allowed(before + [EVERYTHING, DOCUMENTATION], verb, path, admin) <==>
            Allowed(before + [EVERYTHING], verb, path, admin)
  {
    RootIsBlanket();
    UnderRoot(DOCUMENTATION);
    LastShadowed(before, EVERYTHING, DOCUMENTATION, "", verb, path, admin);
  }

  lemma {:induction false} RootIsBlanket()
    ensures IsBlanket(EVERYTHING, "") && Segments("") == []
  {
    assert "" + "/" + "**" == "/**";
  }

  /** The admin holds every role a user holds. */
  lemma {:induction false} AdminHoldsUserRoles(role: Role)
    requires role in RolesOf(false)
    ensures role in RolesOf(true)
  {
    assert RolesOf(true)[2..] == RolesOf(false);
  }

  /** Whatever the table allows a user it allows the admin. */
  lemma {:induction false} AdminMayWhatUsersMay(rules: seq<Rule>, verb: string, path: string)
    ensures Allowed(rules, verb, path, false) ==> Allowed(rules, verb, path, true)
  {
    var k := Deciding(rules, verb, path);
    if k < |rules| && Grants(rules[k].access, false) {
      var role :| role in rules[k].access && role in RolesOf(false);
      AdminHoldsUserRoles(role);
    }
  }

  // ----- Who is allowed what -----

  /** The same ASCII letter or the same other character. */
  predicate SameLetter(a: char, b: char) {
    a == b || ('A' <= a <= 'Z' && b as int == a as int + 32) || ('A' <= b <= 'Z' && a as int == b as int + 32)
  }

  lemma SameLetterIff(a: char, b: char)
    ensures Lower(a) == Lower(b) <==> SameLetter(a, b)
  {
  }

  /** A rule applies to its method, in any case of letters, or to all methods, and to the paths its
      pattern can be laid along. */
  lemma {:induction false} AppliesIff(rule: Rule, verb: string, path: string)
    ensures Applies(rule, verb, path) <==>
      && (rule.verb.Some? ==>
            && |rule.verb.value| == |verb|
            && forall i :: 0 <= i < |verb| ==> SameLetter(rule.verb.value[i], verb[i]))
      && HasAlignment(IsDoubleStar, MatchSegment, Segments(rule.pattern), Segments(path))
  {
    MatchSegmentsIff(Segments(rule.pattern), Segments(path));
    if rule.verb.Some? && |rule.verb.value| == |verb| {
      forall i | 0 <= i < |verb|
        ensures Lower(rule.verb.value[i]) == Lower(verb[i]) <==> SameLetter(rule.verb.value[i], verb[i])
      {
        SameLetterIff(rule.verb.value[i], verb[i]);
      }
    }
  }

  /** The server's own administration, which checks for itself. */
  predicate UnderAdminApi(path: string) {
    ["Marti", "api", "admin"] <= Segments(path)
  }

  lemma {:induction false} PlainSegment(word: string, segment: string)
    requires '*' !in word
    ensures MatchSegment(word, segment) <==> word == segment
  {
    assert Before(word, '*') == |word|;
  }

  lemma {:induction false} AnyTail(path: seq<string>)
    ensures MatchSegments(["**"], path)
  {
    assert ["**"][1..] == [] && path[|path|..] == [];
    assert MatchSegments([], path[|path|..]);
  }

  /** A pattern of words with everything below them matches the paths that begin with the words. */
  lemma {:induction false} WordsMatch(words: seq<string>, path: seq<string>)
    requires forall w :: w in words ==> '*' !in w
    ensures MatchSegments(words + ["**"], path) <==> words <= path
  {
    if words == [] {
      assert words + ["**"] == ["**"];
      AnyTail(path);
    } else {
      assert words[0] in words && words[0] != "**" by {
        assert "**"[0] == '*';
      }
      assert (words + ["**"])[1..] == words[1..] + ["**"];
      if path != [] {
        PlainSegment(words[0], path[0]);
        WordsMatch(words[1..], path[1..]);
      }
    }
  }

  predicate IsWord(w: string) {
    w != "" && '/' !in w
  }

  lemma {:induction false} WordThen(word: string, rest: string, segments: seq<string>)
    requires IsWord(word) && Segments(rest) == segments
    ensures Segments(word + "/" + rest) == [word] + segments
  {
    SegmentsNone(word);
    SegmentsJoin(word, rest);
  }

  lemma {:induction false} WordAlone(word: string)
    requires IsWord(word)
    ensures Segments(word) == [word]
  {
    SegmentsNone(word);
  }

  lemma {:induction false} SlashThen(rest: string)
    ensures Segments("" + "/" + rest) == Segments(rest)
  {
    SegmentsNone("");
    SegmentsJoin("", rest);
  }

  lemma {:induction false} FourSegments(a: string, b: string, c: string, d: string)
    requires IsWord(a) && IsWord(b) && IsWord(c) && IsWord(d)
    ensures Segments("" + "/" + (a + "/" + (b + "/" + (c + "/" + d)))) == [a] + ([b] + ([c] + [d]))
  {
    WordAlone(d);
    WordThen(c, d, [d]);
    WordThen(b, c + "/" + d, [c] + [d]);
    WordThen(a, b + "/" + (c + "/" + d), [b] + ([c] + [d]));
    SlashThen(a + "/" + (b + "/" + (c + "/" + d)));
  }

  lemma {:induction false} AdminApiParts()
    ensures OWN_ADMIN_API == "" + "/" + ("Marti" + "/" + ("api" + "/" + ("admin" + "/" + "**")))
    ensures IsWord("Marti") && IsWord("api") && IsWord("admin") && IsWord("**")
    ensures '*' !in "Marti" && '*' !in "api" && '*' !in "admin"
  {
  }

  lemma {:induction false} WordsAnt(pattern: string, words: seq<string>, path: string)
    requires Segments(pattern) == words + ["**"] && forall w :: w in words ==> '*' !in w
    ensures AntMatch(pattern, path) <==> words <= Segments(path)
  {
    WordsMatch(words, Segments(path));
  }

  lemma {:induction false} ThreeWords(pattern: string, a: string, b: string, c: string, d: string, path: string)
    requires IsWord(a) && IsWord(b) && IsWord(c) && IsWord(d) && d == "**"
    requires '*' !in a && '*' !in b && '*' !in c
    requires pattern == "" + "/" + (a + "/" + (b + "/" + (c + "/" + d)))
    ensures AntMatch(pattern, path) <==> [a, b, c] <= Segments(path)
  {
    FourSegments(a, b, c, d);
    assert [a] + ([b] + ([c] + [d])) == [a, b, c] + ["**"];
    WordsAnt(pattern, [a, b, c], path);
  }

  lemma {:induction false} AdminApiIff(path: string)
    ensures AntMatch(OWN_ADMIN_API, path) <==> UnderAdminApi(path)
  {
    AdminApiParts();
    ThreeWords(OWN_ADMIN_API, "Marti", "api", "admin", "**", path);
  }

  /** The first rule that applies is `rules[k]`. */
  ghost predicate FirstToApply(rules: seq<Rule>, verb: string, path: string, k: int) {
    0 <= k < |rules| && Applies(rules[k], verb, path) && forall i :: 0 <= i < k ==> !Applies(rules[i], verb, path)
  }

  ghost predicate NoneApplies(rules: seq<Rule>, verb: string, path: string) {
    forall i :: 0 <= i < |rules| ==> !Applies(rules[i], verb, path)
  }

  lemma {:induction false} FirstDecides(rules: seq<Rule>, verb: string, path: string)
    ensures var k := Deciding(rules, verb, path);
      && (k == |rules| <==> NoneApplies(rules, verb, path))
      && forall j :: FirstToApply(rules, verb, path, j) <==> j == k < |rules|
  {
    var k := Deciding(rules, verb, path);
    forall j
      ensures FirstToApply(rules, verb, path, j) <==> j == k < |rules|
    {
    }
  }

  lemma {:induction false} AllowedIs(rules: seq<Rule>, verb: string, path: string, admin: bool, k: nat)
    requires k == Deciding(rules, verb, path)
    ensures Allowed(rules, verb, path, admin) <==>
            UnderAdminApi(path) || k == |rules| || Grants(rules[k].access, admin)
  {
    AdminApiIff(path);
  }

  lemma {:induction false} AllowedByFirst(rules: seq<Rule>, verb: string, path: string, admin: bool)
    ensures Allowed(rules, verb, path, admin) <==>
      || UnderAdminApi(path) || NoneApplies(rules, verb, path)
      || exists k :: FirstToApply(rules, verb, path, k) && Grants(rules[k].access, admin)
  {
    var k := Deciding(rules, verb, path);
    FirstDecides(rules, verb, path);
    AllowedIs(rules, verb, path, admin, k);
    if k < |rules| {
      assert FirstToApply(rules, verb, path, k);
    }
  }

  /** A user who is not the admin is allowed exactly what nobody decides and what the first rule
      that applies opens to anonymous users, to users of the plain interface or of WebTAK. */
  lemma {:induction false} UserAllowedIff(rules: seq<Rule>, verb: string, path: string)
    ensures Allowed(rules, verb, path, false) <==>
      || UnderAdminApi(path) || NoneApplies(rules, verb, path)
      || exists k :: FirstToApply(rules, verb, path, k) &&
           (Anonymous in rules[k].access || NonAdminUi in rules[k].access || WebTak in rules[k].access)
  {
    AllowedByFirst(rules, verb, path, false);
    forall access
      ensures Grants(access, false) <==> Anonymous in access || NonAdminUi in access || WebTak in access
    {
      UserGrants(access);
    }
  }

  lemma {:induction false} UserGrants(access: seq<Role>)
    ensures Grants(access, false) <==> Anonymous in access || NonAdminUi in access || WebTak in access
  {
    assert RolesOf(false)[0] == Anonymous && RolesOf(false)[1] == NonAdminUi && RolesOf(false)[2] == WebTak;
  }

  lemma {:induction false} AdminGrants(access: seq<Role>)
    ensures Grants(access, true) <==>
      Admin in access || Readonly in access || Anonymous in access || NonAdminUi in access || WebTak in access
  {
    var roles := RolesOf(true);
    assert roles[0] == Admin && roles[1] == Readonly && roles[2] == Anonymous;
    assert roles[3] == NonAdminUi && roles[4] == WebTak;
  }

  lemma {:induction false} AdminAllowedIff(rules: seq<Rule>, verb: string, path: string)
    ensures Allowed(rules, verb, path, true) <==>
      || UnderAdminApi(path) || NoneApplies(rules, verb, path)
      || exists k :: FirstToApply(rules, verb, path, k) &&
           (|| Admin in rules[k].access || Readonly in rules[k].access
            || Anonymous in rules[k].access || NonAdminUi in rules[k].access || WebTak in rules[k].access)
  {
    AllowedByFirst(rules, verb, path, true);
    forall access
      ensures Grants(access, true) <==>
        Admin in access || Readonly in access || Anonymous in access || NonAdminUi in access || WebTak in access
    {
      AdminGrants(access);
    }
  }

  /** What the table first decides for the admin alone is refused to every other user. */
  lemma {:induction false} AdminOnly(rules: seq<Rule>, verb: string, path: string, k: nat)
    requires FirstToApply(rules, verb, path, k) && rules[k].access == [Admin] && !UnderAdminApi(path)
    ensures Allowed(rules, verb, path, true) && !Allowed(rules, verb, path, false)
  {
    UserAllowedIff(rules, verb, path);
    AdminAllowedIff(rules, verb, path);
  }
}
