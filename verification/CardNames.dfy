/** What the paths in `closed` mean, in the characters a reader of the list sees. */
module CardNames {
  import opened JsonText
  import opened PartialReader
  import opened CardScanner
  import opened ScanRefinement
  import opened Truncation
  import opened PartialCard
  import opened CardTheorems
  import opened CardStream

  /** Decimal digits without a leading zero. */
  predicate IsNumeral(t: Text) {
    && t != [] && (t[0] == 0x30 ==> |t| == 1)
    && forall k :: 0 <= k < |t| ==> 0x30 <= t[k] <= 0x39
  }

  /** The number that digits spell. */
  function NumberOf(digits: Text): int {
    if digits == [] then 0
    else
      var k := |digits| - 1;
      10 * NumberOf(digits[..k]) + digits[k] as int - 0x30
  }

  /** `p` reads `steps[j]`. */
  predicate NamesCard(p: Text, j: int) {
    && |p| > 7 && p[..6] == Codes("steps[") && p[|p| - 1..] == Codes("]")
    && IsNumeral(p[6..|p| - 1]) && NumberOf(p[6..|p| - 1]) == j
  }

  predicate IsStepsList(member: Member) {
    member.key == Codes("steps") && member.val.Some? && member.val.value.Arr?
  }

  predicate IsFinishedAt(member: Member, j: int) {
    IsStepsList(member) && var items := member.val.value.items; 0 <= j < |items| && items[j].Obj? && items[j].done
  }

  /** The array under the key `steps` has a finished object at this zero-based index. */
  ghost predicate HasFinishedCard(members: seq<Member>, j: int) {
    exists m :: 0 <= m < |members| && IsFinishedAt(members[m], j)
  }

  lemma {:induction false} StepsAreSteps()
    ensures Codes("steps") == STEPS && Codes("steps[") == STEPS + [OPEN_BRACKET] && Codes("]") == [CLOSE_BRACKET]
  {
  }

  /** What the scanner takes for the path of a card: `steps[`, at least one digit, `]`. */
  lemma {:induction false} CardPathIs(p: Text)
    ensures IsCardPath(p) <==>
      exists digits: Text :: digits != [] && (forall k :: 0 <= k < |digits| ==> 0x30 <= digits[k] <= 0x39)
                             && p == Codes("steps[") + digits + Codes("]")
  {
    hide Codes;
    StepsAreSteps();
    if IsCardPath(p) {
      var digits := p[6..|p| - 1];
      assert p == p[..6] + digits + [p[|p| - 1]];
      assert forall k :: 0 <= k < |digits| ==> digits[k] == p[k + 6];
    }
    forall digits: Text | digits != [] && (forall k :: 0 <= k < |digits| ==> 0x30 <= digits[k] <= 0x39)
                          && p == Codes("steps[") + digits + Codes("]")
      ensures IsCardPath(p)
    {
      assert p[..6] == Codes("steps[") && p[|p| - 1] == CLOSE_BRACKET;
      assert forall k :: 6 <= k < |p| - 1 ==> p[k] == digits[k - 6];
    }
  }

  // ----- paths along the scan, for every buffer

  /** The path of a container that opens: in an array the element's index in brackets behind the
      array's path, in an object its key behind a point, or the key alone at the top. The key is
      used up by it, and so it is by a comma; a comma in an array counts. */
  lemma {:induction false} PathOfContainer(s: Text, i: nat, st: ScanState)
    requires i < |s| && st.mode == Outside && st.frames != []
    requires s[i] == '{' as int || s[i] == '[' as int || s[i] == ',' as int
    ensures Step(s, i, st).Some?
    ensures var n := |st.frames|; var parent := st.frames[n - 1]; var after := Step(s, i, st).value.frames;
      if s[i] == ',' as int then
        && |after| == n && after[..n - 1] == st.frames[..n - 1] && after[n - 1].path == parent.path && after[n - 1].kind == parent.kind
        && (if parent.kind == Array then after[n - 1].nextIndex == parent.nextIndex + 1 else after[n - 1].pendingKey == None)
      else
        && |after| == n + 1 && after[..n - 1] == st.frames[..n - 1]
        && after[n].kind == (if s[i] == '{' as int then Object else Array) && after[n].nextIndex == 0 && after[n].pendingKey == None
        && after[n - 1].path == parent.path && after[n - 1].nextIndex == parent.nextIndex
        && (if parent.kind == Array then
              exists digits: Text :: IsNumeral(digits) && NumberOf(digits) == parent.nextIndex
                                     && after[n].path == parent.path + Codes("[") + digits + Codes("]")
            else
              && after[n - 1].pendingKey == None
              && after[n].path == (match parent.pendingKey
                                   case None => parent.path
                                   case Some(key) => if parent.path == [] then key else parent.path + Codes(".") + key))
  {
    hide IsNumeral, NumberOf, Decimal, Codes;
    StepUnrolled(s, i, st);
    DecimalIs(st.frames[|st.frames| - 1].nextIndex);
    PointsAre();
  }

  lemma {:induction false} PointsAre()
    ensures Codes("[") == [OPEN_BRACKET] && Codes("]") == [CLOSE_BRACKET] && Codes(".") == [DOT]
    ensures OPEN_BRACE == '{' as int && OPEN_BRACKET == '[' as int && COMMA == ',' as int
  {
  }

  // ----- decimals

  lemma {:induction false} DecimalUnfold(n: nat)
    ensures Decimal(n) == if n < 10 then [0x30 + n] else Decimal(n / 10) + [0x30 + n % 10]
  {
  }

  lemma {:induction false} NumberAppend(t: Text, c: Code)
    ensures NumberOf([]) == 0 && NumberOf(t + [c]) == 10 * NumberOf(t) + c as int - 0x30
  {
    assert (t + [c])[..|t|] == t;
  }

  lemma {:induction false} NumeralAppend(t: Text, c: Code)
    requires t != []
    ensures IsNumeral(t + [c]) <==> IsNumeral(t) && t[0] != 0x30 && 0x30 <= c <= 0x39
    ensures IsNumeral([c]) <==> 0x30 <= c <= 0x39
  {
    var u := t + [c];
    assert u[..|t|] == t && u[0] == t[0] && u[|t|] == c;
    if IsNumeral(t) && t[0] != 0x30 && 0x30 <= c <= 0x39 {
      assert forall k :: 0 <= k < |t| ==> u[k] == t[k];
    }
    if IsNumeral(u) {
      assert forall k :: 0 <= k < |t| ==> u[k] == t[k];
    }
  }

  lemma {:induction false} DecimalIs(n: nat)
    ensures Decimal(n) != [] && IsNumeral(Decimal(n)) && NumberOf(Decimal(n)) == n
    ensures n > 0 ==> Decimal(n)[0] != 0x30
  {
    hide Decimal, NumberOf, IsNumeral;
    DecimalUnfold(n);
    NumberAppend([], 0x30 + n % 10);
    assert [] + [0x30 + n % 10] == [0x30 + n % 10];
    if n < 10 {
      NumeralAppend([0x30], 0x30 + n);
    } else {
      DecimalIs(n / 10);
      NumeralAppend(Decimal(n / 10), 0x30 + n % 10);
      NumberAppend(Decimal(n / 10), 0x30 + n % 10);
    }
  }

  lemma {:induction false} NumeralIs(t: Text)
    requires IsNumeral(t)
    ensures NumberOf(t) >= 0 && t == Decimal(NumberOf(t))
  {
    hide Decimal, NumberOf, IsNumeral;
    NumeralEnds(t);
    var k := |t| - 1;
    var c := t[k];
    assert t == t[..k] + [c];
    NumberAppend(t[..k], c);
    if k == 0 {
      assert t[..0] == [];
      DecimalUnfold(c - 0x30);
    } else {
      NumeralAppend(t[..k], c);
      NumeralIs(t[..k]);
      var n := NumberOf(t[..k]);
      if n == 0 {
        DecimalUnfold(0);
      }
      DecimalUnfold(10 * n + c - 0x30);
    }
  }

  lemma {:induction false} NumeralEnds(t: Text)
    requires IsNumeral(t)
    ensures t != [] && 0x30 <= t[|t| - 1] <= 0x39
  {
  }

  /** The scanner's name for an element is the one a reader takes it for. */
  lemma {:induction false} NameIs(p: Text, j: int)
    ensures NamesCard(p, j) <==> j >= 0 && p == ItemPath(STEPS, j)
  {
    hide Codes, Decimal, IsNumeral, NumberOf;
    StepsAreSteps();
    if NamesCard(p, j) {
      NumeralIs(p[6..|p| - 1]);
      assert p == p[..6] + p[6..|p| - 1] + p[|p| - 1..];
    }
    if j >= 0 && p == ItemPath(STEPS, j) {
      DecimalIs(j);
      DecimalDigits(j);
      assert p[..6] == STEPS + [OPEN_BRACKET] && p[6..|p| - 1] == Decimal(j) && p[|p| - 1..] == [CLOSE_BRACKET];
    }
  }

  // ----- the closed list

  lemma {:induction false} InFinished(items: seq<Node>, j: nat)
    ensures ItemPath(STEPS, j) in FinishedCards(items) <==> j < |items| && items[j].Obj? && items[j].done
  {
    hide ItemPath;
    if items == [] {
    } else {
      var k := |items| - 1;
      InFinished(items[..k], j);
      if ItemPath(STEPS, j) == ItemPath(STEPS, k) {
        ItemPathInjective(j, k);
      }
    }
  }

  lemma {:induction false} FinishedAreNamed(items: seq<Node>, p: Text)
    requires p in FinishedCards(items)
    ensures exists j: nat :: p == ItemPath(STEPS, j)
  {
    hide ItemPath;
    var k := |items| - 1;
    if p in FinishedCards(items[..k]) {
      FinishedAreNamed(items[..k], p);
    } else {
      assert p == ItemPath(STEPS, k);
    }
  }

  lemma {:induction false} StepsMember(member: Member)
    ensures IsStepsArray(member) <==> IsStepsList(member)
  {
    hide Codes;
    StepsAreSteps();
  }

  lemma {:induction false} InCards(members: seq<Member>, p: Text)
    ensures p in CardsOf(members) <==> exists j: nat :: p == ItemPath(STEPS, j) && HasFinishedCard(members, j)
  {
    hide ItemPath, FinishedCards, IsStepsArray, HasFinishedCard;
    if members == [] {
      NoneFinished();
    } else {
      var last, rest := members[|members| - 1], members[..|members| - 1];
      InCards(rest, p);
      StepsMember(last);
      forall j: nat
        ensures HasFinishedCard(members, j) <==> HasFinishedCard(rest, j) || ItemPath(STEPS, j) in FinishedCards(StepsItems(last))
      {
        FinishedSplit(members, j);
        InFinished(StepsItems(last), j);
      }
      if p in FinishedCards(StepsItems(last)) {
        FinishedAreNamed(StepsItems(last), p);
      }
    }
  }

  lemma {:induction false} NoneFinished()
    ensures forall j :: !HasFinishedCard([], j)
  {
  }

  lemma {:induction false} FinishedSplit(members: seq<Member>, j: nat)
    requires members != []
    ensures HasFinishedCard(members, j) <==>
      HasFinishedCard(members[..|members| - 1], j) || IsFinishedAt(members[|members| - 1], j)
  {
    hide IsFinishedAt;
    var rest := members[..|members| - 1];
    if HasFinishedCard(rest, j) {
      var m :| 0 <= m < |rest| && IsFinishedAt(rest[m], j);
      assert members[m] == rest[m];
    }
    if HasFinishedCard(members, j) {
      var m :| 0 <= m < |members| && IsFinishedAt(members[m], j);
      assert m < |rest| ==> rest[m] == members[m];
    }
  }

  /** On an untorn buffer in which nothing forges a card path, the closed list holds exactly the
      texts `steps[j]` for the indices `j` of the finished objects in the array under `steps`. */
  lemma {:induction false} ClosedNamesCards(buffer: Text, p: Text)
    requires ReadCard(buffer).Ok? && !IsTorn(buffer) && !Forges(NodeRead(buffer).members)
    ensures p in ParseOf(buffer).closed <==> exists j :: NamesCard(p, j) && HasFinishedCard(NodeRead(buffer).members, j)
    ensures ScanOf(buffer).l0Active <==> exists k :: 0 <= k < |NodeRead(buffer).members| && IsStepsList(NodeRead(buffer).members[k])
  {
    hide ReadCard, ScanOf, ParseOf, Forges, CardsOf, NamesCard, HasFinishedCard, IsStepsList, IsStepsArray, ItemPath;
    var members := NodeRead(buffer).members;
    ClosedExactlyIff(buffer);
    InCards(members, p);
    forall j
      ensures NamesCard(p, j) <==> j >= 0 && p == ItemPath(STEPS, j)
    {
      NameIs(p, j);
    }
    ScanReports(buffer);
    forall k | 0 <= k < |members|
      ensures IsStepsArray(members[k]) <==> IsStepsList(members[k])
    {
      StepsMember(members[k]);
    }
  }

  // ----- the order of the list

  /** The names of one array's cards rise. */
  lemma {:induction false} FinishedRise(items: seq<Node>, a: nat, b: nat, i: int, j: int)
    requires a < b < |FinishedCards(items)|
    requires NamesCard(FinishedCards(items)[a], i) && NamesCard(FinishedCards(items)[b], j)
    ensures i < j < |items|
  {
    hide NamesCard, ItemPath;
    var k := |items| - 1;
    var rest := FinishedCards(items[..k]);
    if b < |rest| {
      FinishedRise(items[..k], a, b, i, j);
    } else {
      var p := FinishedCards(items)[a];
      assert p == rest[a] && p in rest;
      FinishedAreNamed(items[..k], p);
      var n: nat :| p == ItemPath(STEPS, n);
      FinishedCardAt(items[..k], n);
      NameIs(p, i);
      ItemPathInjective(n, i);
      NameIs(FinishedCards(items)[b], j);
      ItemPathInjective(k, j);
    }
  }

  predicate OneStepsKey(members: seq<Member>) {
    forall a, b :: 0 <= a < b < |members| && members[a].key == Codes("steps") ==> members[b].key != Codes("steps")
  }

  lemma {:induction false} NoSteps(members: seq<Member>)
    requires forall k :: 0 <= k < |members| ==> !IsStepsArray(members[k])
    ensures CardsOf(members) == []
  {
    if members == [] {
    } else {
      NoSteps(members[..|members| - 1]);
    }
  }

  /** With one key `steps` all cards are those of its array. */
  lemma {:induction false} CardsOfOne(members: seq<Member>, m: nat)
    requires m < |members| && IsStepsArray(members[m])
    requires forall k :: 0 <= k < |members| && k != m ==> !IsStepsArray(members[k])
    ensures CardsOf(members) == FinishedCards(members[m].val.value.items)
  {
    var last := |members| - 1;
    if m == last {
      NoSteps(members[..last]);
    } else {
      CardsOfOne(members[..last], m);
    }
  }

  /** And then the list is in the order of the cards: the numbers in it rise. */
  lemma {:induction false} ClosedInOrder(buffer: Text, a: nat, b: nat, i: int, j: int)
    requires ReadCard(buffer).Ok? && !IsTorn(buffer) && !Forges(NodeRead(buffer).members) && OneStepsKey(NodeRead(buffer).members)
    requires a < b < |ParseOf(buffer).closed|
    requires NamesCard(ParseOf(buffer).closed[a], i) && NamesCard(ParseOf(buffer).closed[b], j)
    ensures i < j
  {
    hide ReadCard, ScanOf, ParseOf, Forges, CardsOf, NamesCard, Codes;
    var members := NodeRead(buffer).members;
    ClosedExactlyIff(buffer);
    StepsAreSteps();
    if m :| 0 <= m < |members| && IsStepsArray(members[m]) {
      CardsOfOne(members, m);
      FinishedRise(members[m].val.value.items, a, b, i, j);
    } else {
      NoSteps(members);
      assert false;
    }
  }
}
