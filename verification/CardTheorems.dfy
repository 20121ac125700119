/** What a growing buffer shows: nothing is taken back, and closed cards never change. */
module CardTheorems {
  import opened JsonText
  import opened NumberToken
  import opened PartialReader
  import opened CardScanner
  import opened ScanRefinement
  import opened Truncation
  import opened PartialCard

  // ----- values of objects whose keys are distinct

  predicate Distinct(members: seq<Member>) {
    forall i, j :: 0 <= i < j < |members| ==> members[i].key != members[j].key
  }

  lemma {:induction false} EntriesAt(members: seq<Member>)
    requires Distinct(members)
    ensures |EntriesOf(members)| == |members|
    ensures forall k :: 0 <= k < |members| ==> EntriesOf(members)[k] == Entry(members[k].key, MemberValue(members[k]))
  {
    if members == [] {
    } else {
      EntriesAt(members[..|members| - 1]);
    }
  }

  lemma {:induction false} ValuesAt(items: seq<Node>)
    ensures forall k :: 0 <= k < |items| ==> ValuesOf(items)[k] == ValueOf(items[k])
  {
    if items == [] {
    } else {
      ValuesAt(items[..|items| - 1]);
    }
  }

  // ----- repeated keys that do no harm

  /** Whatever beginning of it the buffer ends with, the member shows null. */
  predicate NeverShows(val: Option<Node>) {
    match val
    case None => true
    case Some(Literal(token, _)) => LiteralValue(token) == JNull
    case Some(Number(token, _)) => forall k :: 0 <= k <= |token| ==> !IsNumber(token[..k])
    case _ => false
  }

  /** A key occurs again only over null, and never shows anything but null. */
  predicate HarmlessRepeats(members: seq<Member>) {
    forall i, j :: 0 <= i < j < |members| && members[i].key == members[j].key ==>
      MemberValue(members[i]) == JNull && NeverShows(members[j].val)
  }

  /** So in every object of the node. */
  predicate Harmless(node: Node) {
    match node
    case Arr(items, _) => forall k :: 0 <= k < |items| ==> Harmless(items[k])
    case Obj(members, _) =>
      HarmlessRepeats(members) && forall k :: 0 <= k < |members| ==> members[k].val.Some? ==> Harmless(members[k].val.value)
    case _ => true
  }

  lemma {:induction false} NeverShown(member: Member)
    requires NeverShows(member.val)
    ensures MemberValue(member) == JNull
  {
    match member.val
    case None =>
    case Some(Literal(_, _)) =>
    case Some(Number(token, _)) => assert token[..|token|] == token;
    case _ =>
  }

  /** An entry holds the value of the last member with its key. */
  lemma {:induction false} EntryFrom(members: seq<Member>, k: nat) returns (m: nat)
    requires k < |EntriesOf(members)|
    ensures m < |members| && EntriesOf(members)[k] == Entry(members[m].key, MemberValue(members[m]))
    ensures forall i :: m < i < |members| ==> members[i].key != members[m].key
  {
    var last, rest := members[|members| - 1], members[..|members| - 1];
    var at := IndexOf(EntriesOf(rest), last.key);
    m := |members| - 1;
    if k == at {
    } else {
      m := EntryFrom(rest, k);
      EntriesDistinct(members);
      assert EntriesOf(members)[k].key != EntriesOf(members)[at].key;
    }
  }

  predicate DistinctEntries(entries: seq<Entry>) {
    forall i, j :: 0 <= i < j < |entries| ==> entries[i].key != entries[j].key
  }

  lemma {:induction false} EntriesDistinct(members: seq<Member>)
    ensures DistinctEntries(EntriesOf(members))
  {
    if members == [] {
    } else {
      var last, before := members[|members| - 1], EntriesOf(members[..|members| - 1]);
      EntriesDistinct(members[..|members| - 1]);
      PutDistinct(before, last.key, MemberValue(last));
    }
  }

  lemma {:induction false} PutDistinct(entries: seq<Entry>, key: Text, val: Json)
    requires DistinctEntries(entries)
    ensures DistinctEntries(Put(entries, key, val))
  {
    var at, after := IndexOf(entries, key), Put(entries, key, val);
    forall i, j | 0 <= i < j < |after|
      ensures after[i].key != after[j].key
    {
      assert i < |entries| && after[i].key == entries[i].key;
      if j < |entries| {
        assert after[j].key == entries[j].key;
      }
    }
  }

  /** Every key has its entry. */
  lemma {:induction false} EntryFor(members: seq<Member>, m: nat)
    requires m < |members|
    ensures IndexOf(EntriesOf(members), members[m].key) < |EntriesOf(members)|
  {
    var last, rest := members[|members| - 1], members[..|members| - 1];
    if m < |members| - 1 {
      EntryFor(rest, m);
      var k := IndexOf(EntriesOf(rest), members[m].key);
      assert EntriesOf(members)[k].key == members[m].key;
    } else {
      var k := IndexOf(EntriesOf(rest), last.key);
      assert EntriesOf(members)[k].key == last.key;
    }
  }

  /** A harmless repetition changes no entry. */
  lemma {:induction false} RepeatChangesNothing(members: seq<Member>)
    requires members != [] && HarmlessRepeats(members)
    ensures EntriesOf(members[..|members| - 1]) <= EntriesOf(members)
  {
    var last, rest := members[|members| - 1], members[..|members| - 1];
    var entries := EntriesOf(rest);
    var k := IndexOf(entries, last.key);
    if k < |entries| {
      var m := EntryFrom(rest, k);
      assert rest[m] == members[m] && members[m].key == last.key;
      NeverShown(last);
      assert entries[k] == Entry(last.key, JNull);
    }
  }

  lemma {:induction false} EntriesKept(members: seq<Member>, n: nat)
    requires n <= |members| && HarmlessRepeats(members)
    ensures EntriesOf(members[..n]) <= EntriesOf(members)
    decreases |members|
  {
    if n == |members| {
      assert members[..n] == members;
    } else {
      var rest := members[..|members| - 1];
      RepeatChangesNothing(members);
      EntriesKept(rest, n);
      assert rest[..n] == members[..n];
    }
  }

  // ----- growth of shown values

  /** What an unfinished literal may still turn out to be. */
  predicate LiteralKept(token: Text, w: Json) {
    || (token <= TRUE && w == JBool(true))
    || (token <= FALSE && w == JBool(false))
    || (w.JNull? && token != TRUE && token != FALSE)
  }

  /** The value `w` shown for a longer buffer keeps what the reading `a` shows: finished parts
      are equal, and along the last path only the token that touches the end of the buffer, or
      the value that is still missing there, may turn into something else. */
  ghost predicate Keeps(a: Node, w: Json)
    decreases a, 1
  {
    if a.done then w == ValueOf(a)
    else
      match a
      case Literal(token, _) => LiteralKept(token, w)
      case Number(token, _) => w.JNull? || (w.JNumber? && token <= w.token)
      case Str(text, _) => w.JString? && text <= w.text
      case Arr(items, _) =>
        && w.JArray? && |items| <= |w.items|
        && (forall k :: 0 <= k < |items| - 1 ==> w.items[k] == ValueOf(items[k]))
        && (items != [] ==> Keeps(items[|items| - 1], w.items[|items| - 1]))
      case Obj(members, _) =>
        && w.JObject? && EntriesKeep(EntriesOf(members), w.entries, if members == [] then None else Some(members[|members| - 1].key))
        && (members != [] ==>
              var last := members[|members| - 1];
              last.val.Some? ==>
                var k := IndexOf(w.entries, last.key);
                k < |w.entries| && Keeps(last.val.value, w.entries[k].val))
  }

  /** All entries are there, in place, and all but the open one are equal. */
  predicate EntriesKeep(entries: seq<Entry>, longer: seq<Entry>, open: Option<Text>) {
    && |entries| <= |longer|
    && forall k :: 0 <= k < |entries| ==>
         longer[k].key == entries[k].key && (Some(entries[k].key) != open ==> longer[k] == entries[k])
  }

  /** Literals that go on are the same literal: `true` and `false` are not beginnings of others. */
  lemma {:induction false} LiteralGrows(t: Text, u: Text)
    requires t <= u && IsLiteralBeginning(u)
    ensures LiteralKept(t, LiteralValue(u))
  {
    if t == TRUE || t == FALSE {
      assert u[0] == t[0];
    }
  }

  lemma {:induction false} GrowingValue(a: Node, b: Node)
    requires Grows(a, b) && Harmless(b)
    ensures Keeps(a, ValueOf(b))
    decreases a
  {
    if !a.done {
      match a
      case Literal(token, _) => LiteralGrows(token, b.token);
      case Number(_, _) =>
      case Str(_, _) =>
      case Arr(items, _) => GrowingItems(items, b.items);
      case Obj(members, _) => GrowingMembers(members, b.members);
    }
  }

  lemma {:induction false} GrowingItems(items: seq<Node>, longer: seq<Node>)
    requires |items| <= |longer|
    requires forall k :: 0 <= k < |items| - 1 ==> items[k] == longer[k]
    requires items != [] ==> Grows(items[|items| - 1], longer[|items| - 1])
    requires forall k :: 0 <= k < |longer| ==> Harmless(longer[k])
    ensures Keeps(Arr(items, false), JArray(ValuesOf(longer)))
    decreases items
  {
    ValuesAt(longer);
    if items != [] {
      var k := |items| - 1;
      GrowingValue(items[k], longer[k]);
    }
  }

  /** Writing another value under the same key. */
  lemma {:induction false} PutKeeps(entries: seq<Entry>, key: Text, v: Json, w: Json)
    ensures EntriesKeep(Put(entries, key, v), Put(entries, key, w), Some(key))
    ensures var k := IndexOf(Put(entries, key, w), key); k < |Put(entries, key, w)| && Put(entries, key, w)[k].val == w
  {
    var k, after := IndexOf(entries, key), Put(entries, key, w);
    assert after[k] == Entry(key, w);
    assert forall i :: 0 <= i < k ==> after[i] == entries[i];
  }

  lemma {:induction false} IndexStays(entries: seq<Entry>, longer: seq<Entry>, key: Text)
    requires entries <= longer && IndexOf(entries, key) < |entries|
    ensures IndexOf(longer, key) == IndexOf(entries, key)
  {
    var k := IndexOf(entries, key);
    assert longer[k] == entries[k];
    assert forall i :: 0 <= i < k ==> longer[i] == entries[i];
  }

  lemma {:induction false} GrowingMembers(members: seq<Member>, longer: seq<Member>)
    requires |members| <= |longer| && HarmlessRepeats(longer)
    requires forall k :: 0 <= k < |members| - 1 ==> members[k] == longer[k]
    requires members != [] ==>
      var last, next := members[|members| - 1], longer[|members| - 1];
      && last.key == next.key
      && (last.val.Some? ==> next.val.Some? && Grows(last.val.value, next.val.value))
    requires forall k :: 0 <= k < |longer| ==>
      longer[k].val.Some? ==> Harmless(longer[k].val.value)
    ensures Keeps(Obj(members, false), JObject(EntriesOf(longer)))
    decreases members
  {
    hide Keeps, Harmless, HarmlessRepeats, Grows, EntriesOf, IndexOf, Put, EntriesKeep;
    if members == [] {
      NothingKeeps(EntriesOf(longer));
    } else {
      var n := |members|;
      var last, next := members[n - 1], longer[n - 1];
      var before := EntriesOf(members[..n - 1]);
      assert members[..n - 1] == longer[..n - 1] && members == members[..n - 1] + [last] && longer[..n] == longer[..n - 1] + [next];
      EntriesAppend(members[..n - 1], last);
      EntriesAppend(longer[..n - 1], next);
      PutKeeps(before, last.key, MemberValue(last), MemberValue(next));
      EntriesKept(longer, n);
      IndexStays(EntriesOf(longer[..n]), EntriesOf(longer), last.key);
      if last.val.Some? {
        GrowingValue(last.val.value, next.val.value);
      }
      EntriesKeepMore(EntriesOf(members), EntriesOf(longer[..n]), EntriesOf(longer), Some(last.key));
      MembersKeep(members, EntriesOf(longer));
    }
  }

  lemma {:induction false} NothingKeeps(entries: seq<Entry>)
    ensures Keeps(Obj([], false), JObject(entries))
  {
  }

  lemma {:induction false} EntriesKeepMore(entries: seq<Entry>, longer: seq<Entry>, longest: seq<Entry>, open: Option<Text>)
    requires EntriesKeep(entries, longer, open) && longer <= longest
    ensures EntriesKeep(entries, longest, open)
  {
  }

  lemma {:induction false} MembersKeep(members: seq<Member>, entries: seq<Entry>)
    requires members != []
    requires var last := members[|members| - 1]; var k := IndexOf(entries, last.key);
      && EntriesKeep(EntriesOf(members), entries, Some(last.key))
      && (last.val.Some? ==> k < |entries| && Keeps(last.val.value, entries[k].val))
    ensures Keeps(Obj(members, false), JObject(entries))
  {
    hide EntriesOf, IndexOf;
  }

  /** A shorter reading of a harmless one is harmless. */
  lemma {:induction false} HarmlessCut(a: Node, b: Node)
    requires Grows(a, b) && Harmless(b)
    ensures Harmless(a)
    decreases a
  {
    if !a.done {
      match a
      case Literal(_, _) =>
      case Number(_, _) =>
      case Str(_, _) =>
      case Arr(items, _) =>
        if items != [] {
          HarmlessCut(items[|items| - 1], b.items[|items| - 1]);
        }
      case Obj(members, _) => MembersHarmlessCut(members, b.members);
    }
  }

  lemma {:induction false} NeverShowsCut(a: Node, b: Node)
    requires Grows(a, b) && NeverShows(Some(b))
    ensures NeverShows(Some(a))
  {
    match a
    case Literal(token, _) => if !a.done { LiteralGrows(token, b.token); }
    case Number(token, _) =>
      forall k | 0 <= k <= |token|
        ensures !IsNumber(token[..k])
      {
        assert token[..k] == b.token[..k];
      }
    case _ =>
  }

  lemma {:induction false} MembersHarmlessCut(members: seq<Member>, longer: seq<Member>)
    requires |members| <= |longer| && HarmlessRepeats(longer)
    requires forall k :: 0 <= k < |members| - 1 ==> members[k] == longer[k]
    requires members != [] ==>
      var last, next := members[|members| - 1], longer[|members| - 1];
      && last.key == next.key
      && (last.val.Some? ==> next.val.Some? && Grows(last.val.value, next.val.value))
    requires forall k :: 0 <= k < |longer| ==>
      longer[k].val.Some? ==> Harmless(longer[k].val.value)
    ensures Harmless(Obj(members, false))
    decreases members
  {
    if members != [] {
      var k := |members| - 1;
      if members[k].val.Some? {
        HarmlessCut(members[k].val.value, longer[k].val.value);
      }
      forall i, j | 0 <= i < j < |members| && members[i].key == members[j].key
        ensures MemberValue(members[i]) == JNull && NeverShows(members[j].val)
      {
        assert longer[i].key == longer[j].key;
        if j == k && members[k].val.Some? {
          NeverShowsCut(members[k].val.value, longer[k].val.value);
        }
      }
    }
  }

  // ----- which paths are card paths

  /** The first character of what a child adds to its parent's path. */
  predicate IsJoint(c: Code) {
    c == DOT || c == OPEN_BRACKET
  }

  /** No container strictly below this path has a card path. */
  ghost predicate BarrenBelow(path: Text) {
    forall tail: Text :: tail != [] && IsJoint(tail[0]) ==> !IsCardPath(path + tail)
  }

  ghost predicate Barren(path: Text) {
    path != [] && !IsCardPath(path) && BarrenBelow(path)
  }

  lemma {:induction false} BarrenChild(path: Text, tail: Text)
    requires BarrenBelow(path) && tail != [] && IsJoint(tail[0])
    ensures Barren(path + tail)
  {
    forall more: Text | more != [] && IsJoint(more[0])
      ensures !IsCardPath(path + tail + more)
    {
      assert path + tail + more == path + (tail + more);
    }
  }

  lemma {:induction false} BarrenItem(path: Text, k: nat)
    requires path != [] && BarrenBelow(path)
    ensures Barren(ItemPath(path, k))
  {
    var tail := [OPEN_BRACKET] + Decimal(k) + [CLOSE_BRACKET];
    assert ItemPath(path, k) == path + tail;
    BarrenChild(path, tail);
  }

  lemma {:induction false} BarrenKey(path: Text, key: Text)
    requires path != [] && BarrenBelow(path)
    ensures Barren(KeyPath(path, key))
  {
    assert KeyPath(path, key) == path + ([DOT] + key);
    BarrenChild(path, [DOT] + key);
  }

  lemma {:induction false} NothingClosed(node: Node, path: Text)
    requires Barren(path)
    ensures ClosedIn(node, path) == []
    decreases node
  {
    match node
    case Arr(items, _) => NothingClosedInItems(items, path);
    case Obj(members, _) => NothingClosedInMembers(members, path);
    case _ =>
  }

  lemma {:induction false} NothingClosedInItems(items: seq<Node>, path: Text)
    requires path != [] && BarrenBelow(path)
    ensures ItemsClosed(items, path) == []
    decreases items
  {
    if items == [] {
    } else {
      var k := |items| - 1;
      NothingClosedInItems(items[..k], path);
      BarrenItem(path, k);
      NothingClosed(items[k], ItemPath(path, k));
    }
  }

  lemma {:induction false} NothingClosedInMembers(members: seq<Member>, path: Text)
    requires path != [] && BarrenBelow(path)
    ensures MembersClosed(members, path) == []
    decreases members
  {
    if members == [] {
    } else {
      var k := |members| - 1;
      NothingClosedInMembers(members[..k], path);
      BarrenKey(path, members[k].key);
      if members[k].val.Some? {
        NothingClosed(members[k].val.value, KeyPath(path, members[k].key));
      }
    }
  }

  // ----- plain top-level keys

  /** A key that cannot be mistaken for a card path. */
  predicate IsPlainKey(key: Text) {
    key != [] && OPEN_BRACKET !in key
  }

  predicate PlainKeys(members: seq<Member>) {
    forall k :: 0 <= k < |members| ==> IsPlainKey(members[k].key)
  }

  lemma {:induction false} BracketAfterSteps(path: Text)
    requires IsCardPath(path)
    ensures path[..5] == STEPS && path[5] == OPEN_BRACKET && DOT !in path[..6]
  {
    var start := STEPS + [OPEN_BRACKET];
    assert path[..5] == start[..5] == STEPS;
    assert path[5] == start[5];
  }

  /** Below a card there are no cards. */
  lemma {:induction false} BelowCard(j: nat)
    ensures ItemPath(STEPS, j) != [] && BarrenBelow(ItemPath(STEPS, j))
  {
    var path := ItemPath(STEPS, j);
    forall tail: Text | tail != [] && IsJoint(tail[0])
      ensures !IsCardPath(path + tail)
    {
      var q := |path| - 1;
      assert (path + tail)[q] == CLOSE_BRACKET && 6 <= q < |path + tail| - 1;
    }
  }

  lemma {:induction false} DecimalDigits(n: nat)
    ensures Decimal(n) != []
    ensures forall k :: 0 <= k < |Decimal(n)| ==> IsDigit(Decimal(n)[k])
  {
    if n < 10 {
    } else {
      DecimalDigits(n / 10);
    }
  }

  lemma {:induction false} CardPath(j: nat)
    ensures IsCardPath(ItemPath(STEPS, j))
  {
    DecimalDigits(j);
    var path := ItemPath(STEPS, j);
    assert path[..6] == STEPS + [OPEN_BRACKET];
    forall k | 6 <= k < |path| - 1
      ensures IsDigit(path[k])
    {
      assert path[k] == Decimal(j)[k - 6];
    }
  }

  /** In the value of `steps` the card paths are those of the array's own finished objects. */
  function FinishedCards(items: seq<Node>): seq<Text> {
    if items == [] then []
    else
      var k := |items| - 1;
      FinishedCards(items[..k]) + if items[k].Obj? && items[k].done then [ItemPath(STEPS, k)] else []
  }

  function StepsItems(member: Member): seq<Node> {
    if IsStepsArray(member) then member.val.value.items else []
  }

  /** The finished object elements of the top-level `steps` array, in order. */
  function CardsOf(members: seq<Member>): seq<Text> {
    if members == [] then []
    else CardsOf(members[..|members| - 1]) + FinishedCards(StepsItems(members[|members| - 1]))
  }

  lemma {:induction false} CardsInItems(items: seq<Node>)
    ensures ItemsClosed(items, STEPS) == FinishedCards(items)
  {
    if items == [] {
    } else {
      var k := |items| - 1;
      CardsInItems(items[..k]);
      CardOrNothing(items[k], k);
    }
  }

  lemma {:induction false} CardOrNothing(item: Node, k: nat)
    ensures ClosedIn(item, ItemPath(STEPS, k)) == if item.Obj? && item.done then [ItemPath(STEPS, k)] else []
  {
    var path := ItemPath(STEPS, k);
    BelowCard(k);
    CardPath(k);
    match item
    case Arr(items, _) => NothingClosedInItems(items, path);
    case Obj(members, _) => NothingClosedInMembers(members, path);
    case _ =>
  }

  /** Below `steps` itself, a key leads nowhere near a card path. */
  lemma {:induction false} StepsObjectIsBarren(key: Text)
    ensures Barren(KeyPath(STEPS, key))
  {
    var path := KeyPath(STEPS, key);
    assert path[5] == DOT;
    forall tail: Text
      ensures !IsCardPath(path + tail)
    {
      assert (path + tail)[..6][5] == DOT;
    }
    assert path + [] == path;
  }

  lemma {:induction false} NoCardsInStepsObject(members: seq<Member>)
    ensures MembersClosed(members, STEPS) == []
  {
    if members == [] {
    } else {
      var k := |members| - 1;
      NoCardsInStepsObject(members[..k]);
      if members[k].val.Some? {
        StepsObjectIsBarren(members[k].key);
        NothingClosed(members[k].val.value, KeyPath(STEPS, members[k].key));
      }
    }
  }

  // ----- exactly which trees forge a card path

  predicate HasCard(items: seq<Node>) {
    exists k :: 0 <= k < |items| && items[k].Obj? && items[k].done
  }

  /** The member closes a card path that is not an element of the top-level `steps`: its key is a
      card path, or it is empty and leads to an object that closes something. */
  predicate ForgingMember(member: Member) {
    && member.val.Some? && member.val.value.Obj?
    && var node := member.val.value;
       || (IsCardPath(member.key) && node.done)
       || (member.key == [] && ClosesBare(node.members))
  }

  /** An object behind empty keys only closes a card path. */
  predicate ClosesBare(members: seq<Member>) {
    exists k :: 0 <= k < |members| && (ForgingMember(members[k]) || HasCard(StepsItems(members[k])))
  }

  predicate Forges(members: seq<Member>) {
    exists k :: 0 <= k < |members| && ForgingMember(members[k])
  }

  lemma {:induction false} FinishedCardsIff(items: seq<Node>)
    ensures FinishedCards(items) != [] <==> HasCard(items)
  {
    if items == [] {
    } else {
      var k, rest := |items| - 1, items[..|items| - 1];
      FinishedCardsIff(rest);
      assert HasCard(rest) ==> HasCard(items) by {
        if HasCard(rest) {
          var i :| 0 <= i < |rest| && rest[i].Obj? && rest[i].done;
          assert items[i] == rest[i];
        }
      }
      if HasCard(items) && !(items[k].Obj? && items[k].done) {
        var i :| 0 <= i < |items| && items[i].Obj? && items[i].done;
        assert rest[i] == items[i];
      }
    }
  }

  /** Below any key but `steps` no path is a card path. */
  lemma {:induction false} BelowOtherKey(key: Text)
    requires key != [] && key != STEPS
    ensures BarrenBelow(key)
  {
    forall tail: Text | tail != [] && IsJoint(tail[0])
      ensures !IsCardPath(key + tail)
    {
      var path := key + tail;
      if IsCardPath(path) {
        BracketAfterSteps(path);
        JointInPath(key, tail);
        assert false;
      }
    }
  }

  lemma {:induction false} JointInPath(key: Text, tail: Text)
    requires tail != [] && IsJoint(tail[0]) && IsCardPath(key + tail)
    ensures key == STEPS
  {
    var path := key + tail;
    var start := STEPS + [OPEN_BRACKET];
    assert path[|key|] == tail[0];
    assert forall k :: 0 <= k < 6 ==> path[k] == start[k];
    assert forall k :: 0 <= k < 5 ==> start[k] == STEPS[k] && !IsJoint(STEPS[k]);
    if |key| == 5 {
      assert key == path[..5] == start[..5];
    }
  }

  lemma {:induction false} BareItem(k: nat)
    ensures Barren(ItemPath([], k))
  {
    var path := ItemPath([], k);
    assert path[0] == OPEN_BRACKET;
    forall tail: Text
      ensures !IsCardPath(path + tail)
    {
      NotFromBracket(path + tail);
    }
    assert path + [] == path;
  }

  lemma {:induction false} NotFromBracket(path: Text)
    requires path != [] && path[0] == OPEN_BRACKET
    ensures !IsCardPath(path)
  {
    assert |path| > 5 ==> path[..6][0] == path[0];
    assert (STEPS + [OPEN_BRACKET])[0] == STEPS[0];
  }

  lemma {:induction false} BareItems(items: seq<Node>)
    ensures ItemsClosed(items, []) == []
  {
    if items == [] {
    } else {
      var k := |items| - 1;
      BareItems(items[..k]);
      BareItem(k);
      NothingClosed(items[k], ItemPath([], k));
    }
  }

  /** What a member closes: its cards, and more exactly if it forges. */
  lemma {:induction false} MemberForges(member: Member)
    ensures !ForgingMember(member) ==> MemberClosed(member, []) == FinishedCards(StepsItems(member))
    ensures ForgingMember(member) ==> MemberClosed(member, []) != [] && StepsItems(member) == []
    decreases member
  {
    if member.val.Some? {
      var node, key := member.val.value, member.key;
      if key == STEPS {
        match node
        case Arr(items, _) => CardsInItems(items);
        case Obj(members, _) => NoCardsInStepsObject(members);
        case _ =>
      } else if key == [] {
        match node
        case Arr(items, _) => BareItems(items);
        case Obj(members, _) => BareCloses(members);
        case _ =>
      } else {
        BelowOtherKey(key);
        match node
        case Arr(items, _) => NothingClosedInItems(items, key);
        case Obj(members, _) => NothingClosedInMembers(members, key);
        case _ =>
      }
    }
  }

  lemma {:induction false} BareCloses(members: seq<Member>)
    ensures MembersClosed(members, []) != [] <==> ClosesBare(members)
    decreases members
  {
    if members == [] {
    } else {
      var last, rest := members[|members| - 1], members[..|members| - 1];
      BareCloses(rest);
      MemberForges(last);
      FinishedCardsIff(StepsItems(last));
      assert ClosesBare(members) <==> ClosesBare(rest) || ForgingMember(last) || HasCard(StepsItems(last)) by {
        BareSplit(members);
      }
    }
  }

  lemma {:induction false} BareSplit(members: seq<Member>)
    requires members != []
    ensures var last, rest := members[|members| - 1], members[..|members| - 1];
      && (ClosesBare(members) <==> ClosesBare(rest) || ForgingMember(last) || HasCard(StepsItems(last)))
      && (Forges(members) <==> Forges(rest) || ForgingMember(last))
  {
    hide ForgingMember, HasCard, StepsItems;
    var last, rest := members[|members| - 1], members[..|members| - 1];
    if ClosesBare(members) {
      var k :| 0 <= k < |members| && (ForgingMember(members[k]) || HasCard(StepsItems(members[k])));
      assert k < |rest| ==> rest[k] == members[k];
    }
    if ClosesBare(rest) {
      var k :| 0 <= k < |rest| && (ForgingMember(rest[k]) || HasCard(StepsItems(rest[k])));
      assert members[k] == rest[k];
    }
    if Forges(members) {
      var k :| 0 <= k < |members| && ForgingMember(members[k]);
      assert k < |rest| ==> rest[k] == members[k];
    }
    if Forges(rest) {
      var k :| 0 <= k < |rest| && ForgingMember(rest[k]);
      assert members[k] == rest[k];
    }
  }

  /** The closed paths are the cards, and more exactly if something forges. */
  lemma {:induction false} ClosedOrForged(members: seq<Member>)
    ensures !Forges(members) ==> MembersClosed(members, []) == CardsOf(members)
    ensures Forges(members) ==> |MembersClosed(members, [])| > |CardsOf(members)|
    decreases members
  {
    hide ForgingMember, StepsItems, FinishedCards, MemberClosed;
    if members == [] {
    } else {
      ClosedOrForged(members[..|members| - 1]);
      MemberForges(members[|members| - 1]);
      BareSplit(members);
      NoCards();
    }
  }

  lemma {:induction false} NoCards()
    ensures FinishedCards([]) == []
  {
  }

  /** The scanner's closed paths are exactly the cards if and only if nothing forges. */
  lemma {:induction false} ClosedAreCardsIff(members: seq<Member>)
    ensures MembersClosed(members, []) == CardsOf(members) <==> !Forges(members)
  {
    ClosedOrForged(members);
  }

  lemma {:induction false} CardPathHasBracket(path: Text)
    requires IsCardPath(path)
    ensures OPEN_BRACKET in path
  {
    BracketAfterSteps(path);
  }

  /** Keys that are not empty and hold no bracket forge nothing. */
  lemma {:induction false} PlainKeysForgeNothing(members: seq<Member>)
    requires PlainKeys(members)
    ensures !Forges(members)
  {
    forall k | 0 <= k < |members|
      ensures !ForgingMember(members[k])
    {
      if IsCardPath(members[k].key) {
        CardPathHasBracket(members[k].key);
      }
    }
  }

  /** A longer reading forges what a shorter one does. */
  lemma {:induction false} ForgingGrows(x: Member, y: Member)
    requires x.key == y.key && (x.val.Some? ==> y.val.Some? && Grows(x.val.value, y.val.value)) && ForgingMember(x)
    ensures ForgingMember(y)
    decreases x
  {
    var a, b := x.val.value, y.val.value;
    if !a.done {
      BareGrows(a.members, b.members);
    }
  }

  lemma {:induction false} StepsGrow(x: Member, y: Member)
    requires x.key == y.key && (x.val.Some? ==> y.val.Some? && Grows(x.val.value, y.val.value)) && HasCard(StepsItems(x))
    ensures HasCard(StepsItems(y))
  {
    var a, b := x.val.value, y.val.value;
    var k :| 0 <= k < |a.items| && a.items[k].Obj? && a.items[k].done;
    if !a.done && k == |a.items| - 1 {
      assert Grows(a.items[k], b.items[k]);
    }
    assert b.items[k] == a.items[k];
  }

  lemma {:induction false} BareGrows(members: seq<Member>, longer: seq<Member>)
    requires |members| <= |longer| && ClosesBare(members)
    requires forall k :: 0 <= k < |members| - 1 ==> members[k] == longer[k]
    requires members != [] ==>
      var last, next := members[|members| - 1], longer[|members| - 1];
      last.key == next.key && (last.val.Some? ==> next.val.Some? && Grows(last.val.value, next.val.value))
    ensures ClosesBare(longer)
    decreases members
  {
    var k :| 0 <= k < |members| && (ForgingMember(members[k]) || HasCard(StepsItems(members[k])));
    if k == |members| - 1 {
      if ForgingMember(members[k]) {
        ForgingGrows(members[k], longer[k]);
      } else {
        StepsGrow(members[k], longer[k]);
      }
    }
    assert ForgingMember(longer[k]) || HasCard(StepsItems(longer[k]));
  }

  lemma {:induction false} ForgesGrows(a: Node, b: Node)
    requires a.Obj? && b.Obj? && Grows(a, b) && Forges(a.members)
    ensures Forges(b.members)
  {
    hide ForgingMember;
    if !a.done {
      var k :| 0 <= k < |a.members| && ForgingMember(a.members[k]);
      if k == |a.members| - 1 {
        ForgingGrows(a.members[k], b.members[k]);
      }
      assert ForgingMember(b.members[k]);
    }
  }
}
