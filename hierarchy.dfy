/** The data helpers and the tree builder of the project browser
    (views/projects.py): flattening paged API results, finding the inbox
    project, grouping tasks by project, and laying out items as an indented
    tree in pre-order. */
module Hierarchy {
  import opened Wrappers
  import opened Text
  import opened Dicts

  // ---------------------------------------------------------------------
  // flatten_data
  // ---------------------------------------------------------------------

  /** An element of an API result: one item, or a page (a list) of items. */
  datatype Element<T> = Single(value: T) | Page(items: seq<T>)

  /** The items, pages spliced in place, one level deep. */
  function Flattened<T>(data: seq<Element<T>>): seq<T> {
    if |data| == 0 then []
    else
      Flattened(data[..|data| - 1]) +
        match data[|data| - 1]
        case Single(x) => [x]
        case Page(xs) => xs
  }

  /** `flatten_data`. */
  method FlattenData<T>(data: seq<Element<T>>) returns (flat: seq<T>)
    ensures flat == Flattened(data)
  {
    flat := [];
    var i := 0;
    while i < |data|
      invariant 0 <= i <= |data|
      invariant flat == Flattened(data[..i])
    {
      assert data[..i + 1][..i] == data[..i];
      match data[i] {
        case Single(x) =>
          flat := flat + [x];
        case Page(xs) =>
          flat := flat + xs;
      }
      i := i + 1;
    }
    assert data[..i] == data;
  }

  /** Flattening keeps order: the result of a concatenation is the
      concatenation of the results. */
  lemma {:induction false} FlattenedAppend<T>(a: seq<Element<T>>, b: seq<Element<T>>)
    ensures Flattened(a + b) == Flattened(a) + Flattened(b)
    decreases |b|
  {
    if |b| == 0 {
      assert a + b == a;
    } else {
      assert (a + b)[..|a + b| - 1] == a + b[..|b| - 1];
      FlattenedAppend(a, b[..|b| - 1]);
    }
  }

  /** `x` is the element, or one of the items of the page. */
  predicate Carries<T(==)>(e: Element<T>, x: T) {
    match e
    case Single(y) => y == x
    case Page(xs) => x in xs
  }

  /** Every single item and every page item is kept, and nothing else. */
  lemma {:induction false} FlattenedMembers<T>(data: seq<Element<T>>)
    ensures forall x :: x in Flattened(data) ==> exists e :: e in data && Carries(e, x)
    ensures forall x, e :: e in data && Carries(e, x) ==> x in Flattened(data)
  {
    if |data| > 0 {
      var init := data[..|data| - 1];
      var e := data[|data| - 1];
      FlattenedMembers(init);
      assert data == init + [e];
      forall x | x in Flattened(data)
        ensures exists e' :: e' in data && Carries(e', x)
      {
        if x in Flattened(init) {
          var e' :| e' in init && Carries(e', x);
          assert e' in data;
        } else {
          assert e in data && Carries(e, x);
        }
      }
      forall x, e' | e' in data && Carries(e', x)
        ensures x in Flattened(data)
      {
        if e' in init {
          assert x in Flattened(init);
        }
      }
    }
  }

  // ---------------------------------------------------------------------
  // get_inbox_id
  // ---------------------------------------------------------------------

  /** The fields of a Todoist project that the browser reads. */
  datatype TodoProject = TodoProject(id: string, name: string, isInboxProject: bool)

  /** The fallback test: the name is "inbox" or its Polish form, in any
      case. */
  predicate InboxName(name: string) {
    Lower(name) == "inbox" || Lower(name) == "skrzynka odbiorcza"
  }

  /** `get_inbox_id`: the first project flagged as the inbox; failing that,
      the first one named like it; failing that, none. */
  method GetInboxId(projects: seq<TodoProject>) returns (r: Option<string>)
    ensures (exists i :: 0 <= i < |projects| && projects[i].isInboxProject) ==>
      exists i :: 0 <= i < |projects| && projects[i].isInboxProject && r == Some(projects[i].id) &&
        forall j :: 0 <= j < i ==> !projects[j].isInboxProject
    ensures (forall i :: 0 <= i < |projects| ==> !projects[i].isInboxProject) &&
            (exists i :: 0 <= i < |projects| && InboxName(projects[i].name)) ==>
      exists i :: 0 <= i < |projects| && InboxName(projects[i].name) && r == Some(projects[i].id) &&
        forall j :: 0 <= j < i ==> !InboxName(projects[j].name)
    ensures (forall i :: 0 <= i < |projects| ==> !projects[i].isInboxProject && !InboxName(projects[i].name)) ==>
      r == None
  {
    var i := 0;
    while i < |projects|
      invariant 0 <= i <= |projects|
      invariant forall j :: 0 <= j < i ==> !projects[j].isInboxProject
    {
      if projects[i].isInboxProject {
        return Some(projects[i].id);
      }
      i := i + 1;
    }
    i := 0;
    while i < |projects|
      invariant 0 <= i <= |projects|
      invariant forall j :: 0 <= j < i ==> !InboxName(projects[j].name)
    {
      if InboxName(projects[i].name) {
        return Some(projects[i].id);
      }
      i := i + 1;
    }
    return None;
  }

  // ---------------------------------------------------------------------
  // map_tasks_to_projects
  // ---------------------------------------------------------------------

  /** The fields of a Todoist task that the browser reads. */
  datatype TodoTask = TodoTask(id: string, projectId: string, content: string)

  /** The tasks of one project, in input order. */
  function TasksOf(tasks: seq<TodoTask>, pid: string): seq<TodoTask> {
    if |tasks| == 0 then []
    else
      var t := tasks[|tasks| - 1];
      TasksOf(tasks[..|tasks| - 1], pid) + (if t.projectId == pid then [t] else [])
  }

  /** The dict `map_tasks_to_projects` builds. */
  function Grouped(tasks: seq<TodoTask>): Dict<seq<TodoTask>> {
    if |tasks| == 0 then []
    else
      var d := Grouped(tasks[..|tasks| - 1]);
      var t := tasks[|tasks| - 1];
      Put(d, t.projectId, Lookup(d, t.projectId).GetOr([]) + [t])
  }

  /** `map_tasks_to_projects`. */
  method MapTasksToProjects(tasks: seq<TodoTask>) returns (mapping: Dict<seq<TodoTask>>)
    ensures mapping == Grouped(tasks)
  {
    mapping := [];
    var i := 0;
    while i < |tasks|
      invariant 0 <= i <= |tasks|
      invariant mapping == Grouped(tasks[..i])
    {
      assert tasks[..i + 1][..i] == tasks[..i];
      var task := tasks[i];
      var pid := task.projectId;
      var existing := Lookup(mapping, pid).GetOr([]);
      mapping := Put(mapping, pid, existing + [task]);
      i := i + 1;
    }
    assert tasks[..i] == tasks;
  }

  /** Every task sits exactly once under its project id, in input order:
      each key holds exactly its project's tasks, and a key is present iff
      some task has that project. */
  lemma {:induction false} GroupedLaws(tasks: seq<TodoTask>)
    ensures DistinctKeys(Grouped(tasks))
    ensures forall pid :: Lookup(Grouped(tasks), pid) == if TasksOf(tasks, pid) == [] then None else Some(TasksOf(tasks, pid))
  {
    if |tasks| > 0 {
      var init := tasks[..|tasks| - 1];
      var t := tasks[|tasks| - 1];
      var d := Grouped(init);
      GroupedLaws(init);
      PutLaws(d, t.projectId, Lookup(d, t.projectId).GetOr([]) + [t]);
      forall pid ensures Lookup(Grouped(tasks), pid) == if TasksOf(tasks, pid) == [] then None else Some(TasksOf(tasks, pid)) {
        assert TasksOf(tasks, pid) == TasksOf(init, pid) + (if t.projectId == pid then [t] else []);
        assert Lookup(d, pid) == if TasksOf(init, pid) == [] then None else Some(TasksOf(init, pid));
        if pid == t.projectId {
          assert Lookup(Grouped(tasks), pid) == Some(Lookup(d, pid).GetOr([]) + [t]);
          assert Lookup(d, pid).GetOr([]) == TasksOf(init, pid);
          assert |TasksOf(tasks, pid)| > 0;
        } else {
          assert Lookup(Grouped(tasks), pid) == Lookup(d, pid);
          assert TasksOf(tasks, pid) == TasksOf(init, pid);
        }
      }
    }
  }

  // ---------------------------------------------------------------------
  // build_hierarchy
  // ---------------------------------------------------------------------

  /** An item given to the tree builder: its id, its parent id (`None` when
      the attribute is missing or None) and its order attribute (`None`
      when missing, read as 0). */
  datatype Item = Item(id: string, parent: Option<string>, order: Option<int>)

  function OrderOf(x: Item): int {
    x.order.GetOr(0)
  }

  /** An item as the builder lists it, with its 'depth' and 'tree_prefix'. */
  datatype Placed = Placed(item: Item, depth: nat, prefix: string)

  /** The connectors as the file spells them (UTF-8 box-drawing text read
      as Mac Roman): before a last child, before any other child, and the
      matching continuations for the child's own children. */
  const LastBranch: string := "\U{201A}\U{00EE}\U{00EE}\U{201A}\U{00EE}\U{00C4}\U{201A}\U{00EE}\U{00C4} "
  const MidBranch: string := "\U{201A}\U{00EE}\U{00FA}\U{201A}\U{00EE}\U{00C4}\U{201A}\U{00EE}\U{00C4} "
  const LastSpacer: string := "    "
  const MidSpacer: string := "\U{201A}\U{00EE}\U{00C7}   "

  function Connector(isLast: bool): string {
    if isLast then LastBranch else MidBranch
  }

  function Spacer(isLast: bool): string {
    if isLast then LastSpacer else MidSpacer
  }

  /** The 'tree_prefix' of an item: none for a root, else the parent's
      continuation followed by the connector. */
  function OwnPrefix(depth: nat, prefix: string, isLast: bool): string {
    if depth == 0 then "" else prefix + Connector(isLast)
  }

  /** The prefix handed to an item's children. */
  function ChildPrefix(depth: nat, prefix: string, isLast: bool): string {
    if depth == 0 then "" else prefix + Spacer(isLast)
  }

  /** The ids of the input items (the keys of `item_map`). */
  function Ids(items: seq<Item>): set<string> {
    set x | x in items :: x.id
  }

  /** A parent id that Python treats as true: present and not empty. */
  predicate Truthy(pid: Option<string>) {
    pid.Some? && pid.value != ""
  }

  /** A root: its parent id is false or names no input item. */
  predicate IsRootIn(x: Item, ids: set<string>) {
    !(Truthy(x.parent) && x.parent.value in ids)
  }

  /** The roots among `xs`, in order. */
  function RootsIn(xs: seq<Item>, ids: set<string>): seq<Item> {
    if |xs| == 0 then []
    else RootsIn(xs[..|xs| - 1], ids) + (if IsRootIn(xs[|xs| - 1], ids) then [xs[|xs| - 1]] else [])
  }

  /** The children of `id` among `xs`, in order. */
  function ChildrenIn(xs: seq<Item>, ids: set<string>, id: string): seq<Item> {
    if |xs| == 0 then []
    else
      var x := xs[|xs| - 1];
      ChildrenIn(xs[..|xs| - 1], ids, id) + (if !IsRootIn(x, ids) && x.parent.value == id then [x] else [])
  }

  // --- list.sort(key=order): a stable sort ------------------------------

  predicate SortedByOrder(s: seq<Item>) {
    forall i, j :: 0 <= i < j < |s| ==> OrderOf(s[i]) <= OrderOf(s[j])
  }

  /** `x` placed after every element whose order is not above its own. */
  function Insert(s: seq<Item>, x: Item): seq<Item> {
    if |s| == 0 || OrderOf(s[|s| - 1]) <= OrderOf(x) then s + [x]
    else Insert(s[..|s| - 1], x) + [s[|s| - 1]]
  }

  lemma {:induction false} InsertPermutes(s: seq<Item>, x: Item)
    ensures multiset(Insert(s, x)) == multiset(s) + multiset{x}
  {
    if |s| > 0 && OrderOf(s[|s| - 1]) > OrderOf(x) {
      InsertPermutes(s[..|s| - 1], x);
      assert s == s[..|s| - 1] + [s[|s| - 1]];
    }
  }

  /** The items sorted by order, ties in input order. */
  function SortByOrder(xs: seq<Item>): seq<Item> {
    if |xs| == 0 then []
    else Insert(SortByOrder(xs[..|xs| - 1]), xs[|xs| - 1])
  }

  /** The items of `s` whose order is `v`, in order. */
  function OfOrder(s: seq<Item>, v: int): seq<Item> {
    if |s| == 0 then []
    else OfOrder(s[..|s| - 1], v) + (if OrderOf(s[|s| - 1]) == v then [s[|s| - 1]] else [])
  }

  lemma {:induction false} OfOrderAppend(a: seq<Item>, b: seq<Item>, v: int)
    ensures OfOrder(a + b, v) == OfOrder(a, v) + OfOrder(b, v)
    decreases |b|
  {
    if |b| == 0 {
      assert a + b == a;
    } else {
      assert (a + b)[..|a + b| - 1] == a + b[..|b| - 1];
      OfOrderAppend(a, b[..|b| - 1], v);
    }
  }

  lemma {:induction false} InsertSorted(s: seq<Item>, x: Item)
    requires SortedByOrder(s)
    ensures SortedByOrder(Insert(s, x))
  {
    if |s| > 0 && OrderOf(s[|s| - 1]) > OrderOf(x) {
      var init := s[..|s| - 1];
      var y := s[|s| - 1];
      assert SortedByOrder(init);
      InsertSorted(init, x);
      SortedLastIsMax(s);
      InsertBelow(init, x, OrderOf(y));
      SortedAppend(Insert(init, x), y);
    }
  }

  /** In a sorted list nothing before the last item sorts above it. */
  lemma SortedLastIsMax(s: seq<Item>)
    requires |s| > 0 && SortedByOrder(s)
    ensures forall z :: z in s[..|s| - 1] ==> OrderOf(z) <= OrderOf(s[|s| - 1])
  {
    forall z | z in s[..|s| - 1] ensures OrderOf(z) <= OrderOf(s[|s| - 1]) {
      var i :| 0 <= i < |s| - 1 && s[..|s| - 1][i] == z;
      assert s[i] == z;
    }
  }

  /** Inserting below a bound keeps every item below it. */
  lemma InsertBelow(s: seq<Item>, x: Item, bound: int)
    requires OrderOf(x) <= bound && forall z :: z in s ==> OrderOf(z) <= bound
    ensures forall z :: z in Insert(s, x) ==> OrderOf(z) <= bound
  {
    InsertPermutes(s, x);
    forall z | z in Insert(s, x) ensures OrderOf(z) <= bound {
      assert z in multiset(Insert(s, x));
      if z != x {
        assert z in multiset(s);
      }
    }
  }

  lemma SortedAppend(r: seq<Item>, y: Item)
    requires SortedByOrder(r) && forall z :: z in r ==> OrderOf(z) <= OrderOf(y)
    ensures SortedByOrder(r + [y])
  {
    var t := r + [y];
    forall i, j | 0 <= i < j < |t| ensures OrderOf(t[i]) <= OrderOf(t[j]) {
      if j == |r| {
        assert t[i] in r;
      } else {
        assert t[i] == r[i] && t[j] == r[j];
      }
    }
  }

  lemma {:induction false} InsertStable(s: seq<Item>, x: Item, v: int)
    ensures OfOrder(Insert(s, x), v) == OfOrder(s, v) + OfOrder([x], v)
  {
    if |s| == 0 || OrderOf(s[|s| - 1]) <= OrderOf(x) {
      OfOrderAppend(s, [x], v);
    } else {
      var init := s[..|s| - 1];
      var y := s[|s| - 1];
      var a, mx, my := OfOrder(init, v), OfOrder([x], v), OfOrder([y], v);
      // x sorts strictly below y, so at most one of them has order v
      assert mx + my == my + mx by {
        assert OfOrder([], v) == [];
        if OrderOf(x) == v {
          assert my == [];
        } else {
          assert mx == [];
        }
      }
      calc {
        OfOrder(Insert(s, x), v);
        OfOrder(Insert(init, x) + [y], v);
        { OfOrderAppend(Insert(init, x), [y], v); }
        OfOrder(Insert(init, x), v) + my;
        { InsertStable(init, x, v); }
        (a + mx) + my;
        a + (mx + my);
        a + (my + mx);
        (a + my) + mx;
        { OfOrderAppend(init, [y], v); assert s == init + [y]; }
        OfOrder(s, v) + mx;
      }
    }
  }

  /** The sort's result is sorted by order, a permutation of its input,
      and stable: the items of each order value keep their input order. */
  lemma {:induction false} SortByOrderLaws(xs: seq<Item>)
    ensures SortedByOrder(SortByOrder(xs))
    ensures multiset(SortByOrder(xs)) == multiset(xs)
    ensures forall v :: OfOrder(SortByOrder(xs), v) == OfOrder(xs, v)
  {
    if |xs| > 0 {
      var init := xs[..|xs| - 1];
      var x := xs[|xs| - 1];
      SortByOrderLaws(init);
      InsertSorted(SortByOrder(init), x);
      InsertPermutes(SortByOrder(init), x);
      assert xs == init + [x];
      forall v ensures OfOrder(SortByOrder(xs), v) == OfOrder(xs, v) {
        InsertStable(SortByOrder(init), x, v);
        OfOrderAppend(init, [x], v);
        assert xs == init + [x];
      }
    }
  }

  // --- the traversal -----------------------------------------------------

  /** The children of the item with id `id`, as the traversal lists them. */
  function ChildrenOf(items: seq<Item>, id: string): seq<Item> {
    SortByOrder(ChildrenIn(items, Ids(items), id))
  }

  /** `traverse(x, depth, prefix, isLast)`: `x` with its prefix, then the
      subtrees of its children, which `childrenOf` lists by parent id.
      `fuel` bounds the depth of the recursion (see `Hierarchy`). */
  function Tree(childrenOf: string -> seq<Item>, x: Item, depth: nat, prefix: string, isLast: bool, fuel: nat): seq<Placed>
    decreases fuel, 0
  {
    if fuel == 0 then []
    else
      [Placed(x, depth, OwnPrefix(depth, prefix, isLast))] +
        Forest(childrenOf, childrenOf(x.id), 0, depth + 1, ChildPrefix(depth, prefix, isLast), fuel - 1)
  }

  /** The subtrees of `xs[k..]`, the last of `xs` marked as last. */
  function Forest(childrenOf: string -> seq<Item>, xs: seq<Item>, k: nat, depth: nat, prefix: string, fuel: nat): seq<Placed>
    decreases fuel, 1, |xs| - k
  {
    if k >= |xs| then []
    else Tree(childrenOf, xs[k], depth, prefix, k == |xs| - 1, fuel) + Forest(childrenOf, xs, k + 1, depth, prefix, fuel)
  }

  lemma AppendAssoc<T>(a: seq<T>, b: seq<T>, c: seq<T>)
    ensures a + (b + c) == (a + b) + c
  {
  }

  lemma TreeUnfold(childrenOf: string -> seq<Item>, x: Item, depth: nat, prefix: string, isLast: bool, fuel: nat)
    requires fuel > 0
    ensures Tree(childrenOf, x, depth, prefix, isLast, fuel) ==
      [Placed(x, depth, OwnPrefix(depth, prefix, isLast))] +
      Forest(childrenOf, childrenOf(x.id), 0, depth + 1, ChildPrefix(depth, prefix, isLast), fuel - 1)
  {
  }

  lemma ForestUnfold(childrenOf: string -> seq<Item>, xs: seq<Item>, k: nat, depth: nat, prefix: string, fuel: nat)
    requires k < |xs|
    ensures Forest(childrenOf, xs, k, depth, prefix, fuel) ==
      Tree(childrenOf, xs[k], depth, prefix, k == |xs| - 1, fuel) + Forest(childrenOf, xs, k + 1, depth, prefix, fuel)
  {
  }

  /** The child lists of `items`, as the traversal looks them up. */
  function ChildrenFn(items: seq<Item>): string -> seq<Item> {
    id => ChildrenOf(items, id)
  }

  /** `build_hierarchy`: the roots in order, each followed by its subtree.
      The recursion is cut below |items| levels. With distinct ids the cut
      never removes an item (`HierarchyOnce`: a chain that reaches a root
      is shorter than the input); with repeated ids `traverse` in
      views/projects.py can recurse without end instead. */
  function Hierarchy(items: seq<Item>): seq<Placed> {
    if |items| == 0 then []
    else Forest(ChildrenFn(items), SortByOrder(RootsIn(items, Ids(items))), 0, 0, "", |items|)
  }

  /** The first loop of `build_hierarchy`: each item becomes a root or is
      appended to its parent's child list. */
  method Partition(items: seq<Item>) returns (roots: seq<Item>, children: map<string, seq<Item>>)
    ensures roots == RootsIn(items, Ids(items))
    ensures forall id :: id in children ==> children[id] == ChildrenIn(items, Ids(items), id)
    ensures forall id :: id !in children ==> ChildrenIn(items, Ids(items), id) == []
  {
    var ids := set x | x in items :: x.id;
    roots := [];
    children := map[];
    var i := 0;
    while i < |items|
      invariant 0 <= i <= |items|
      invariant roots == RootsIn(items[..i], ids)
      invariant forall id :: id in children ==> children[id] == ChildrenIn(items[..i], ids, id)
      invariant forall id :: id !in children ==> ChildrenIn(items[..i], ids, id) == []
    {
      var item := items[i];
      PartitionStep(items, i, ids, item);
      var pid := item.parent;
      if pid.Some? && pid.value != "" && pid.value in ids {
        var siblings := if pid.value in children then children[pid.value] else [];
        children := children[pid.value := siblings + [item]];
      } else {
        roots := roots + [item];
      }
      i := i + 1;
    }
    assert items[..i] == items;
  }

  /** Taking one more item adds it to the roots or to its parent's
      children, and changes nothing else. */
  lemma PartitionStep(items: seq<Item>, i: nat, ids: set<string>, item: Item)
    requires i < |items| && item == items[i]
    ensures RootsIn(items[..i + 1], ids) == RootsIn(items[..i], ids) + (if IsRootIn(item, ids) then [item] else [])
    ensures forall id :: ChildrenIn(items[..i + 1], ids, id) == ChildrenIn(items[..i], ids, id) + (if !IsRootIn(item, ids) && item.parent.value == id then [item] else [])
  {
    assert items[..i + 1][..i] == items[..i];
  }

  /** The traversal state: the child lists built by `Partition` and the
      `organized` list the recursive traversal appends to. */
  class TreeBuilder {
    ghost const childrenOf: string -> seq<Item>
    const children: map<string, seq<Item>>
    var organized: seq<Placed>

    /** `children_map.get(id, [])`. */
    function ChildList(id: string): seq<Item> {
      if id in children then children[id] else []
    }

    /** Sorted, the child lists are those `childrenOf` gives. */
    ghost predicate Valid() {
      forall id {:trigger ChildList(id)} :: SortByOrder(ChildList(id)) == childrenOf(id)
    }

    constructor (ghost childrenOf: string -> seq<Item>, children: map<string, seq<Item>>)
      requires forall id :: SortByOrder(if id in children then children[id] else []) == childrenOf(id)
      ensures Valid() && this.childrenOf == childrenOf && organized == []
    {
      this.childrenOf := childrenOf;
      this.children := children;
      organized := [];
    }

    /** `children_map.get(id, [])`, sorted by order. */
    method SortedChildren(id: string) returns (kids: seq<Item>)
      requires Valid()
      ensures kids == childrenOf(id)
    {
      kids := SortByOrder(ChildList(id));
    }

    /** `traverse`: appends `item` with its depth and prefix, then the
        subtrees of its children. */
    method Traverse(item: Item, depth: nat, prefix: string, isLast: bool, fuel: nat)
      requires Valid()
      modifies this
      ensures organized == old(organized) + Tree(childrenOf, item, depth, prefix, isLast, fuel)
      decreases fuel, 0
    {
      if fuel == 0 {
        return;
      }
      var currentPrefix := OwnPrefix(depth, prefix, isLast);
      var childPrefix := ChildPrefix(depth, prefix, isLast);
      ghost var before := organized;
      organized := organized + [Placed(item, depth, currentPrefix)];
      var kids := SortedChildren(item.id);
      TraverseAll(kids, depth + 1, childPrefix, fuel - 1);
      TreeUnfold(childrenOf, item, depth, prefix, isLast, fuel);
      AppendAssoc(before, [Placed(item, depth, currentPrefix)], Forest(childrenOf, kids, 0, depth + 1, childPrefix, fuel - 1));
    }

    /** The loop of `traverse` over the sorted children (and of
        `build_hierarchy` over the sorted roots): each subtree in turn, the
        last one marked as last. */
    method TraverseAll(kids: seq<Item>, depth: nat, prefix: string, fuel: nat)
      requires Valid()
      modifies this
      ensures organized == old(organized) + Forest(childrenOf, kids, 0, depth, prefix, fuel)
      decreases fuel, 1
    {
      var i := 0;
      while i < |kids|
        invariant 0 <= i <= |kids|
        invariant old(organized) + Forest(childrenOf, kids, 0, depth, prefix, fuel) ==
          organized + Forest(childrenOf, kids, i, depth, prefix, fuel)
      {
        ghost var mid := organized;
        ghost var sub := Tree(childrenOf, kids[i], depth, prefix, i == |kids| - 1, fuel);
        ghost var rest := Forest(childrenOf, kids, i + 1, depth, prefix, fuel);
        ForestUnfold(childrenOf, kids, i, depth, prefix, fuel);
        Traverse(kids[i], depth, prefix, i == |kids| - 1, fuel);
        AppendAssoc(mid, sub, rest);
        i := i + 1;
      }
    }
  }

  /** `build_hierarchy`. */
  method BuildHierarchy(items: seq<Item>) returns (organized: seq<Placed>)
    ensures organized == Hierarchy(items)
  {
    if |items| == 0 {
      return [];
    }
    var roots, children := Partition(items);
    roots := SortByOrder(roots);
    var builder := new TreeBuilder(ChildrenFn(items), children);
    builder.TraverseAll(roots, 0, "", |items|);
    return builder.organized;
  }

  // --- what the layout promises -------------------------------------------

  /** Partition is exact: an item is a root iff its parent id is false or
      names no input item, and a child of `id` iff its true parent id is
      `id` and names an input item. */
  lemma {:induction false} PartitionMembers(xs: seq<Item>, ids: set<string>)
    ensures forall x :: x in RootsIn(xs, ids) <==> x in xs && IsRootIn(x, ids)
    ensures forall x, id :: x in ChildrenIn(xs, ids, id) <==>
      x in xs && Truthy(x.parent) && x.parent.value in ids && x.parent.value == id
  {
    if |xs| > 0 {
      PartitionMembers(xs[..|xs| - 1], ids);
      assert xs == xs[..|xs| - 1] + [xs[|xs| - 1]];
    }
  }

  /** The items placed at depth `d`, in order. */
  function AtDepth(out: seq<Placed>, d: nat): seq<Item> {
    if |out| == 0 then []
    else AtDepth(out[..|out| - 1], d) + (if out[|out| - 1].depth == d then [out[|out| - 1].item] else [])
  }

  lemma {:induction false} AtDepthAppend(a: seq<Placed>, b: seq<Placed>, d: nat)
    ensures AtDepth(a + b, d) == AtDepth(a, d) + AtDepth(b, d)
    decreases |b|
  {
    if |b| == 0 {
      assert a + b == a;
    } else {
      assert (a + b)[..|a + b| - 1] == a + b[..|b| - 1];
      AtDepthAppend(a, b[..|b| - 1], d);
    }
  }

  lemma {:induction false} AtDepthMembers(out: seq<Placed>, d: nat)
    ensures forall e :: e in out && e.depth == d ==> e.item in AtDepth(out, d)
  {
    if |out| > 0 {
      AtDepthMembers(out[..|out| - 1], d);
      assert out == out[..|out| - 1] + [out[|out| - 1]];
    }
  }

  lemma {:induction false} AtDepthNone(out: seq<Placed>, d: nat)
    requires forall e :: e in out ==> e.depth > d
    ensures AtDepth(out, d) == []
  {
    if |out| > 0 {
      assert out[|out| - 1] in out;
      assert forall e :: e in out[..|out| - 1] ==> e in out;
      AtDepthNone(out[..|out| - 1], d);
    }
  }

  /** Nothing in a subtree sits above the depth it starts at. */
  lemma {:induction false} TreeBelow(childrenOf: string -> seq<Item>, x: Item, depth: nat, prefix: string, isLast: bool, fuel: nat)
    ensures forall e :: e in Tree(childrenOf, x, depth, prefix, isLast, fuel) ==> e.depth >= depth
    decreases fuel, 0
  {
    if fuel > 0 {
      TreeUnfold(childrenOf, x, depth, prefix, isLast, fuel);
      ForestBelow(childrenOf, childrenOf(x.id), 0, depth + 1, ChildPrefix(depth, prefix, isLast), fuel - 1);
    }
  }

  lemma {:induction false} ForestBelow(childrenOf: string -> seq<Item>, xs: seq<Item>, k: nat, depth: nat, prefix: string, fuel: nat)
    ensures forall e :: e in Forest(childrenOf, xs, k, depth, prefix, fuel) ==> e.depth >= depth
    decreases fuel, 1, |xs| - k
  {
    if k < |xs| {
      TreeBelow(childrenOf, xs[k], depth, prefix, k == |xs| - 1, fuel);
      ForestBelow(childrenOf, xs, k + 1, depth, prefix, fuel);
    }
  }

  /** At the depth a subtree starts at, only its root appears. */
  lemma TreeTop(childrenOf: string -> seq<Item>, x: Item, depth: nat, prefix: string, isLast: bool, fuel: nat)
    ensures AtDepth(Tree(childrenOf, x, depth, prefix, isLast, fuel), depth) == if fuel == 0 then [] else [x]
  {
    if fuel > 0 {
      var head := [Placed(x, depth, OwnPrefix(depth, prefix, isLast))];
      var rest := Forest(childrenOf, childrenOf(x.id), 0, depth + 1, ChildPrefix(depth, prefix, isLast), fuel - 1);
      TreeUnfold(childrenOf, x, depth, prefix, isLast, fuel);
      ForestBelow(childrenOf, childrenOf(x.id), 0, depth + 1, ChildPrefix(depth, prefix, isLast), fuel - 1);
      AtDepthNone(rest, depth);
      AtDepthAppend(head, rest, depth);
      assert head[..0] == [];
    }
  }

  /** At the depth a run of sibling subtrees starts at, exactly the
      siblings appear, in order. */
  lemma {:induction false} ForestTop(childrenOf: string -> seq<Item>, xs: seq<Item>, k: nat, depth: nat, prefix: string, fuel: nat)
    requires k <= |xs|
    ensures AtDepth(Forest(childrenOf, xs, k, depth, prefix, fuel), depth) == if fuel == 0 then [] else xs[k..]
    decreases |xs| - k
  {
    if k < |xs| {
      ForestTop(childrenOf, xs, k + 1, depth, prefix, fuel);
      TreeTop(childrenOf, xs[k], depth, prefix, k == |xs| - 1, fuel);
      ForestTopStep(childrenOf, xs, k, depth, prefix, fuel);
    } else {
      assert Forest(childrenOf, xs, k, depth, prefix, fuel) == [];
    }
  }

  /** One more sibling subtree adds its root at the siblings' depth. */
  lemma ForestTopStep(childrenOf: string -> seq<Item>, xs: seq<Item>, k: nat, depth: nat, prefix: string, fuel: nat)
    requires k < |xs|
    requires AtDepth(Forest(childrenOf, xs, k + 1, depth, prefix, fuel), depth) == if fuel == 0 then [] else xs[k + 1..]
    requires AtDepth(Tree(childrenOf, xs[k], depth, prefix, k == |xs| - 1, fuel), depth) == if fuel == 0 then [] else [xs[k]]
    ensures AtDepth(Forest(childrenOf, xs, k, depth, prefix, fuel), depth) == if fuel == 0 then [] else xs[k..]
  {
    var t := Tree(childrenOf, xs[k], depth, prefix, k == |xs| - 1, fuel);
    var rest := Forest(childrenOf, xs, k + 1, depth, prefix, fuel);
    ForestUnfold(childrenOf, xs, k, depth, prefix, fuel);
    AtDepthAppend(t, rest, depth);
    if fuel > 0 {
      assert xs[k..] == [xs[k]] + xs[k + 1..];
    }
  }

  lemma ForestTopMembers(childrenOf: string -> seq<Item>, xs: seq<Item>, depth: nat, prefix: string, fuel: nat)
    ensures forall e :: e in Forest(childrenOf, xs, 0, depth, prefix, fuel) && e.depth == depth ==> e.item in xs
  {
    ForestTop(childrenOf, xs, 0, depth, prefix, fuel);
    AtDepthMembers(Forest(childrenOf, xs, 0, depth, prefix, fuel), depth);
    assert xs[0..] == xs;
  }

  predicate EndsWith(s: string, suffix: string) {
    |suffix| <= |s| && s[|s| - |suffix|..] == suffix
  }

  /** Prefixes follow the depth: none at the top level, a connector at the
      end of every deeper one. */
  predicate PrefixFits(e: Placed) {
    if e.depth == 0 then e.prefix == ""
    else EndsWith(e.prefix, LastBranch) || EndsWith(e.prefix, MidBranch)
  }

  lemma {:induction false} TreePrefixes(childrenOf: string -> seq<Item>, x: Item, depth: nat, prefix: string, isLast: bool, fuel: nat)
    ensures forall e :: e in Tree(childrenOf, x, depth, prefix, isLast, fuel) ==> PrefixFits(e)
    decreases fuel, 0
  {
    if fuel > 0 {
      TreeUnfold(childrenOf, x, depth, prefix, isLast, fuel);
      ForestPrefixes(childrenOf, childrenOf(x.id), 0, depth + 1, ChildPrefix(depth, prefix, isLast), fuel - 1);
      if depth > 0 {
        var c := Connector(isLast);
        assert (prefix + c)[|prefix + c| - |c|..] == c;
      }
    }
  }

  lemma {:induction false} ForestPrefixes(childrenOf: string -> seq<Item>, xs: seq<Item>, k: nat, depth: nat, prefix: string, fuel: nat)
    ensures forall e :: e in Forest(childrenOf, xs, k, depth, prefix, fuel) ==> PrefixFits(e)
    decreases fuel, 1, |xs| - k
  {
    if k < |xs| {
      TreePrefixes(childrenOf, xs[k], depth, prefix, k == |xs| - 1, fuel);
      ForestPrefixes(childrenOf, xs, k + 1, depth, prefix, fuel);
    }
  }

  /** The roots come out at depth 0, sorted by order: every item whose
      parent id is false or unknown, and nothing else. */
  lemma RootsOnTop(items: seq<Item>)
    ensures AtDepth(Hierarchy(items), 0) == SortByOrder(RootsIn(items, Ids(items)))
    ensures forall x :: x in AtDepth(Hierarchy(items), 0) <==> x in items && IsRootIn(x, Ids(items))
  {
    var roots := SortByOrder(RootsIn(items, Ids(items)));
    if |items| > 0 {
      ForestTop(ChildrenFn(items), roots, 0, 0, "", |items|);
      assert roots[0..] == roots;
    }
    SortedRoots(items);
  }

  /** Top-level items have no prefix; every deeper one ends in the last-child
      or the middle-child connector. */
  lemma HierarchyPrefixes(items: seq<Item>)
    ensures forall e :: e in Hierarchy(items) ==> PrefixFits(e)
  {
    if |items| > 0 {
      ForestPrefixes(ChildrenFn(items), SortByOrder(RootsIn(items, Ids(items))), 0, 0, "", |items|);
    }
  }

  // --- parents, membership and the depth cut ------------------------------

  /** Every listed child is an input item. */
  ghost predicate ChildrenWithin(childrenOf: string -> seq<Item>, items: seq<Item>) {
    forall id, y :: y in childrenOf(id) ==> y in items
  }

  /** Every listed child's parent id is the (true) id it is listed under. */
  ghost predicate ChildrenPoint(childrenOf: string -> seq<Item>) {
    forall id, y :: y in childrenOf(id) ==> y.parent == Some(id) && id != ""
  }

  /** Sorting keeps exactly the same items. */
  lemma SortedMembers(xs: seq<Item>)
    ensures forall y :: y in SortByOrder(xs) <==> y in xs
  {
    SortByOrderLaws(xs);
    forall y ensures y in SortByOrder(xs) <==> y in xs {
      assert y in SortByOrder(xs) <==> y in multiset(SortByOrder(xs));
    }
  }

  lemma ChildrenFnFits(items: seq<Item>)
    ensures ChildrenWithin(ChildrenFn(items), items) && ChildrenPoint(ChildrenFn(items))
  {
    forall id, y | y in ChildrenFn(items)(id)
      ensures y in items && y.parent == Some(id) && id != ""
    {
      ChildFits(items, id, y);
    }
  }

  /** A listed child is an input item naming `id` as its parent. */
  lemma ChildFits(items: seq<Item>, id: string, y: Item)
    requires y in ChildrenFn(items)(id)
    ensures y in items && y.parent == Some(id) && id != ""
  {
    var cs := ChildrenIn(items, Ids(items), id);
    assert ChildrenFn(items)(id) == SortByOrder(cs);
    SortedMembers(cs);
    PartitionMembers(items, Ids(items));
  }

  /** The sorted roots are input items, and roots. */
  lemma SortedRoots(items: seq<Item>)
    ensures forall x :: x in SortByOrder(RootsIn(items, Ids(items))) <==> x in items && IsRootIn(x, Ids(items))
  {
    PartitionMembers(items, Ids(items));
    SortedMembers(RootsIn(items, Ids(items)));
  }

  lemma {:induction false} TreeMembers(childrenOf: string -> seq<Item>, items: seq<Item>, x: Item, depth: nat, prefix: string, isLast: bool, fuel: nat)
    requires ChildrenWithin(childrenOf, items) && x in items
    ensures forall e :: e in Tree(childrenOf, x, depth, prefix, isLast, fuel) ==> e.item in items
    decreases fuel, 0
  {
    if fuel > 0 {
      assert forall y :: y in childrenOf(x.id) ==> y in items;
      ForestMembers(childrenOf, items, childrenOf(x.id), 0, depth + 1, ChildPrefix(depth, prefix, isLast), fuel - 1);
      HeadMembers(childrenOf, items, x, depth, prefix, isLast, fuel);
    }
  }

  /** A subtree lists input items once the forest of its children does. */
  lemma HeadMembers(childrenOf: string -> seq<Item>, items: seq<Item>, x: Item, depth: nat, prefix: string, isLast: bool, fuel: nat)
    requires fuel > 0 && x in items
    requires forall e :: e in Forest(childrenOf, childrenOf(x.id), 0, depth + 1, ChildPrefix(depth, prefix, isLast), fuel - 1) ==> e.item in items
    ensures forall e :: e in Tree(childrenOf, x, depth, prefix, isLast, fuel) ==> e.item in items
  {
    var head := [Placed(x, depth, OwnPrefix(depth, prefix, isLast))];
    var f := Forest(childrenOf, childrenOf(x.id), 0, depth + 1, ChildPrefix(depth, prefix, isLast), fuel - 1);
    TreeUnfold(childrenOf, x, depth, prefix, isLast, fuel);
    forall e: Placed | e in head + f ensures e.item in items {
      if e !in f {
        assert e == head[0];
      }
    }
  }

  lemma {:induction false} ForestMembers(childrenOf: string -> seq<Item>, items: seq<Item>, xs: seq<Item>, k: nat, depth: nat, prefix: string, fuel: nat)
    requires ChildrenWithin(childrenOf, items) && forall y :: y in xs ==> y in items
    ensures forall e :: e in Forest(childrenOf, xs, k, depth, prefix, fuel) ==> e.item in items
    decreases fuel, 1, |xs| - k
  {
    if k < |xs| {
      ForestUnfold(childrenOf, xs, k, depth, prefix, fuel);
      TreeMembers(childrenOf, items, xs[k], depth, prefix, k == |xs| - 1, fuel);
      ForestMembers(childrenOf, items, xs, k + 1, depth, prefix, fuel);
    }
  }

  /** Every item listed is an input item. */
  lemma HierarchyMembers(items: seq<Item>)
    ensures forall e :: e in Hierarchy(items) ==> e.item in items
  {
    if |items| > 0 {
      ChildrenFnFits(items);
      SortedRoots(items);
      ForestMembers(ChildrenFn(items), items, SortByOrder(RootsIn(items, Ids(items))), 0, 0, "", |items|);
    }
  }

  /** Every entry below depth `d` has its parent listed earlier. */
  ghost predicate ParentsAbove(out: seq<Placed>, d: nat) {
    forall i :: 0 <= i < |out| && out[i].depth > d ==> ParentAbove(out, i)
  }

  /** Some earlier entry, one level up, is the parent of entry `i`. */
  predicate ParentAbove(out: seq<Placed>, i: nat)
    requires i < |out|
  {
    exists j :: 0 <= j < i && out[j].depth + 1 == out[i].depth && out[i].item.parent == Some(out[j].item.id)
  }

  lemma ParentsAboveAppend(a: seq<Placed>, b: seq<Placed>, d: nat)
    requires ParentsAbove(a, d) && ParentsAbove(b, d)
    ensures ParentsAbove(a + b, d)
  {
    var f := a + b;
    forall i | 0 <= i < |f| && f[i].depth > d ensures ParentAbove(f, i) {
      if i < |a| {
        assert f[i] == a[i];
        assert ParentAbove(a, i);
        var j :| 0 <= j < i && a[j].depth + 1 == a[i].depth && a[i].item.parent == Some(a[j].item.id);
        assert f[j] == a[j];
      } else {
        var i' := i - |a|;
        assert f[i] == b[i'];
        assert ParentAbove(b, i');
        var j :| 0 <= j < i' && b[j].depth + 1 == b[i'].depth && b[i'].item.parent == Some(b[j].item.id);
        assert f[j + |a|] == b[j];
      }
    }
  }

  lemma ParentsUnderHead(h: Placed, f: seq<Placed>, d: nat)
    requires h.depth == d && ParentsAbove(f, d + 1)
    requires forall e :: e in f ==> e.depth >= d + 1
    requires forall e :: e in f && e.depth == d + 1 ==> e.item.parent == Some(h.item.id)
    ensures ParentsAbove([h] + f, d)
  {
    var t := [h] + f;
    forall i | 0 <= i < |t| && t[i].depth > d ensures ParentAbove(t, i) {
      assert i > 0;
      assert t[i] == f[i - 1];
      if t[i].depth == d + 1 {
        assert f[i - 1] in f;
        assert t[0].depth + 1 == t[i].depth && t[i].item.parent == Some(t[0].item.id);
      } else {
        assert ParentAbove(f, i - 1);
        var j :| 0 <= j < i - 1 && f[j].depth + 1 == f[i - 1].depth && f[i - 1].item.parent == Some(f[j].item.id);
        assert t[j + 1] == f[j];
      }
    }
  }

  lemma {:induction false} TreeParents(childrenOf: string -> seq<Item>, x: Item, depth: nat, prefix: string, isLast: bool, fuel: nat)
    requires ChildrenPoint(childrenOf)
    ensures ParentsAbove(Tree(childrenOf, x, depth, prefix, isLast, fuel), depth)
    decreases fuel, 0
  {
    if fuel > 0 {
      ForestParents(childrenOf, childrenOf(x.id), 0, depth + 1, ChildPrefix(depth, prefix, isLast), fuel - 1);
      HeadOverForest(childrenOf, x, depth, prefix, isLast, fuel);
    }
  }

  /** A subtree keeps parents above children once the forest of its
      children does. */
  lemma HeadOverForest(childrenOf: string -> seq<Item>, x: Item, depth: nat, prefix: string, isLast: bool, fuel: nat)
    requires fuel > 0 && ChildrenPoint(childrenOf)
    requires ParentsAbove(Forest(childrenOf, childrenOf(x.id), 0, depth + 1, ChildPrefix(depth, prefix, isLast), fuel - 1), depth + 1)
    ensures ParentsAbove(Tree(childrenOf, x, depth, prefix, isLast, fuel), depth)
  {
    var cp := ChildPrefix(depth, prefix, isLast);
    var f := Forest(childrenOf, childrenOf(x.id), 0, depth + 1, cp, fuel - 1);
    var h := Placed(x, depth, OwnPrefix(depth, prefix, isLast));
    ForestBelow(childrenOf, childrenOf(x.id), 0, depth + 1, cp, fuel - 1);
    ForestTopParents(childrenOf, x, depth + 1, cp, fuel - 1);
    ParentsUnderHead(h, f, depth);
    TreeParentsOfUnfolded(childrenOf, x, depth, prefix, isLast, fuel);
  }

  /** The top level of the forest of `x`'s children names `x` as parent. */
  lemma ForestTopParents(childrenOf: string -> seq<Item>, x: Item, depth: nat, prefix: string, fuel: nat)
    requires ChildrenPoint(childrenOf)
    ensures forall e :: e in Forest(childrenOf, childrenOf(x.id), 0, depth, prefix, fuel) && e.depth == depth ==> e.item.parent == Some(x.id)
  {
    ForestTopMembers(childrenOf, childrenOf(x.id), depth, prefix, fuel);
  }

  lemma TreeParentsOfUnfolded(childrenOf: string -> seq<Item>, x: Item, depth: nat, prefix: string, isLast: bool, fuel: nat)
    requires fuel > 0
    requires ParentsAbove([Placed(x, depth, OwnPrefix(depth, prefix, isLast))] +
      Forest(childrenOf, childrenOf(x.id), 0, depth + 1, ChildPrefix(depth, prefix, isLast), fuel - 1), depth)
    ensures ParentsAbove(Tree(childrenOf, x, depth, prefix, isLast, fuel), depth)
  {
    TreeUnfold(childrenOf, x, depth, prefix, isLast, fuel);
  }

  lemma {:induction false} ForestParents(childrenOf: string -> seq<Item>, xs: seq<Item>, k: nat, depth: nat, prefix: string, fuel: nat)
    requires ChildrenPoint(childrenOf)
    ensures ParentsAbove(Forest(childrenOf, xs, k, depth, prefix, fuel), depth)
    decreases fuel, 1, |xs| - k
  {
    if k < |xs| {
      ForestUnfold(childrenOf, xs, k, depth, prefix, fuel);
      TreeParents(childrenOf, xs[k], depth, prefix, k == |xs| - 1, fuel);
      ForestParents(childrenOf, xs, k + 1, depth, prefix, fuel);
      ParentsAboveAppend(Tree(childrenOf, xs[k], depth, prefix, k == |xs| - 1, fuel), Forest(childrenOf, xs, k + 1, depth, prefix, fuel), depth);
    }
  }

  /** Pre-order: every item below the top level comes after an entry for
      its parent, listed one level up. */
  lemma HierarchyParents(items: seq<Item>)
    ensures ParentsAbove(Hierarchy(items), 0)
  {
    if |items| > 0 {
      ChildrenFnFits(items);
      ForestParents(ChildrenFn(items), SortByOrder(RootsIn(items, Ids(items))), 0, 0, "", |items|);
    }
  }

  // --- each item whose chain reaches a root, exactly once ----------------------

  /** No two input items share an id. */
  predicate DistinctIds(items: seq<Item>) {
    forall i, j :: 0 <= i < |items| && 0 <= j < |items| && items[i].id == items[j].id ==> i == j
  }

  /** The input item with the given id (the entry of `item_map`). */
  function ItemWithId(items: seq<Item>, id: string): (r: Option<Item>)
    ensures r.Some? ==> r.value in items && r.value.id == id
    ensures r.None? ==> forall y :: y in items ==> y.id != id
  {
    if |items| == 0 then None
    else if items[0].id == id then Some(items[0])
    else ItemWithId(items[1..], id)
  }

  /** The parent of `x` among the input items; none for a root. */
  function ParentItem(items: seq<Item>, x: Item): (r: Option<Item>)
    ensures r.None? <==> IsRootIn(x, Ids(items))
    ensures r.Some? ==> r.value in items && x.parent == Some(r.value.id)
  {
    if IsRootIn(x, Ids(items)) then None
    else
      assert exists y :: y in items && y.id == x.parent.value;
      ItemWithId(items, x.parent.value)
  }

  /** The item `k` steps up the parent chain of `x`, if the chain is that
      long. */
  function Up(items: seq<Item>, x: Item, k: nat): Option<Item> {
    if k == 0 then Some(x)
    else match Up(items, x, k - 1)
      case None => None
      case Some(z) => ParentItem(items, z)
  }

  /** The chain of `x` ends at a root after `n` steps. */
  predicate RootAfter(items: seq<Item>, x: Item, n: nat) {
    Up(items, x, n).Some? && IsRootIn(Up(items, x, n).value, Ids(items))
  }

  /** The parent chain of `x` reaches a root: `x` is not on a cycle of
      parent ids, nor below one. */
  ghost predicate Grounded(items: seq<Item>, x: Item) {
    exists n: nat :: RootAfter(items, x, n)
  }

  /** `y` is fewer than `f` steps up the chain of `x`. */
  ghost predicate Below(items: seq<Item>, x: Item, y: Item, f: nat) {
    exists k: nat :: k < f && Up(items, x, k) == Some(y)
  }

  /** `y` is on no cycle of parent ids. */
  ghost predicate Acyclic(items: seq<Item>, y: Item) {
    forall p: nat :: p > 0 ==> Up(items, y, p) != Some(y)
  }

  /** How many entries of `out` list `x`. */
  function Occ(out: seq<Placed>, x: Item): nat {
    if |out| == 0 then 0
    else Occ(out[..|out| - 1], x) + (if out[|out| - 1].item == x then 1 else 0)
  }

  /** `out` lists `x` once if `b` holds, and not at all otherwise. */
  predicate OnceIn(out: seq<Placed>, x: Item, b: bool) {
    Occ(out, x) == if b then 1 else 0
  }

  predicate NoDup<T(==)>(s: seq<T>) {
    forall i, j :: 0 <= i < j < |s| ==> s[i] != s[j]
  }

  lemma {:induction false} OccAppend(a: seq<Placed>, b: seq<Placed>, x: Item)
    ensures Occ(a + b, x) == Occ(a, x) + Occ(b, x)
    decreases |b|
  {
    if |b| == 0 {
      assert a + b == a;
    } else {
      assert (a + b)[..|a + b| - 1] == a + b[..|b| - 1];
      OccAppend(a, b[..|b| - 1], x);
    }
  }

  lemma {:induction false} OccNone(out: seq<Placed>, x: Item)
    requires forall e :: e in out ==> e.item != x
    ensures Occ(out, x) == 0
  {
    if |out| > 0 {
      assert out[|out| - 1] in out;
      assert forall e :: e in out[..|out| - 1] ==> e in out;
      OccNone(out[..|out| - 1], x);
    }
  }

  /** Going `a` then `b` steps up the chain is going `a + b` steps. */
  lemma {:induction false} UpAdd(items: seq<Item>, x: Item, a: nat, b: nat, z: Item)
    requires Up(items, x, a) == Some(z)
    ensures Up(items, x, a + b) == Up(items, z, b)
    decreases b
  {
    if b > 0 {
      UpAdd(items, x, a, b - 1, z);
    }
  }

  /** A chain that is `n` steps long is also every shorter length long. */
  lemma {:induction false} UpDefined(items: seq<Item>, x: Item, i: nat, n: nat)
    requires i <= n && Up(items, x, n).Some?
    ensures Up(items, x, i).Some?
    decreases n - i
  {
    if i < n {
      UpDefined(items, x, i + 1, n);
    }
  }

  /** A chain stops at the first root it reaches. */
  lemma PastRoot(items: seq<Item>, x: Item, n: nat, d: nat, r: Item)
    requires Up(items, x, n) == Some(r) && IsRootIn(r, Ids(items)) && d > 0
    ensures Up(items, x, n + d) == None
  {
    UpAdd(items, x, n, d, r);
    AboveRoot(items, r, d);
  }

  /** Nothing lies above a root. */
  lemma {:induction false} AboveRoot(items: seq<Item>, r: Item, p: nat)
    requires IsRootIn(r, Ids(items)) && p > 0
    ensures Up(items, r, p) == None
    decreases p
  {
    if p > 1 {
      AboveRoot(items, r, p - 1);
    }
  }

  /** The chain of an input item stays among the input items. */
  lemma {:induction false} UpInItems(items: seq<Item>, x: Item, k: nat)
    requires x in items && Up(items, x, k).Some?
    ensures Up(items, x, k).value in items
  {
    if k > 0 {
      UpInItems(items, x, k - 1);
    }
  }

  lemma SameId(items: seq<Item>, a: Item, b: Item)
    requires DistinctIds(items) && a in items && b in items && a.id == b.id
    ensures a == b
  {
    var i :| 0 <= i < |items| && items[i] == a;
    var j :| 0 <= j < |items| && items[j] == b;
  }

  /** With distinct ids, the listed children of an input item `y` are the
      input items whose parent is `y`. */
  lemma ChildrenOfParent(items: seq<Item>, y: Item, c: Item)
    requires DistinctIds(items) && y in items
    ensures c in ChildrenOf(items, y.id) <==> c in items && ParentItem(items, c) == Some(y)
  {
    SortedMembers(ChildrenIn(items, Ids(items), y.id));
    PartitionMembers(items, Ids(items));
    if c in ChildrenOf(items, y.id) {
      SameId(items, ParentItem(items, c).value, y);
    }
  }

  /** A child of an item on no cycle is on no cycle. */
  lemma ChildAcyclic(items: seq<Item>, y: Item, c: Item)
    requires Acyclic(items, y) && ParentItem(items, c) == Some(y)
    ensures Acyclic(items, c)
  {
    forall p: nat | p > 0 ensures Up(items, c, p) != Some(c) {
      UpAdd(items, c, 1, p, y);
    }
  }

  /** A root is on no cycle. */
  lemma RootAcyclic(items: seq<Item>, r: Item)
    requires IsRootIn(r, Ids(items))
    ensures Acyclic(items, r)
  {
    forall p: nat | p > 0 ensures Up(items, r, p) != Some(r) {
      AboveRoot(items, r, p);
    }
  }

  /** `x` lies in the subtree of `y` cut at `f` levels iff it is `y` or
      lies in the subtree of one of its children cut one level earlier. */
  lemma BelowSplit(items: seq<Item>, x: Item, y: Item, f: nat)
    requires DistinctIds(items) && x in items && y in items && f > 0
    ensures Below(items, x, y, f) <==> x == y || exists c :: c in ChildrenOf(items, y.id) && Below(items, x, c, f - 1)
  {
    if x == y {
      assert Up(items, x, 0) == Some(y);
    }
    if Below(items, x, y, f) {
      var k: nat :| k < f && Up(items, x, k) == Some(y);
      if k > 0 {
        var c := Up(items, x, k - 1).value;
        UpInItems(items, x, k - 1);
        ChildrenOfParent(items, y, c);
        assert Below(items, x, c, f - 1);
      }
    }
    if exists c :: c in ChildrenOf(items, y.id) && Below(items, x, c, f - 1) {
      var c :| c in ChildrenOf(items, y.id) && Below(items, x, c, f - 1);
      var k: nat :| k < f - 1 && Up(items, x, k) == Some(c);
      ChildrenOfParent(items, y, c);
      assert Up(items, x, k + 1) == Some(y);
      assert Below(items, x, y, f);
    }
  }

  /** An item on no cycle is not below any of its own children. */
  lemma NotBelowOwnChild(items: seq<Item>, y: Item, c: Item, f: nat)
    requires Acyclic(items, y) && ParentItem(items, c) == Some(y)
    ensures !Below(items, y, c, f)
  {
    forall k: nat | k < f ensures Up(items, y, k) != Some(c) {
      assert Up(items, y, k + 1) == match Up(items, y, k) case None => None case Some(z) => ParentItem(items, z);
    }
  }

  /** Two chains steps apart meet only at an item on a cycle. */
  lemma ChainMeets(items: seq<Item>, x: Item, y: Item, a: nat, b: nat)
    requires a < b && Up(items, x, a) == Some(y) && Up(items, x, b) == Some(y)
    ensures !Acyclic(items, y)
  {
    UpAdd(items, x, a, b - a, y);
  }

  /** Two different children of an item on no cycle never both have `x`
      in their subtrees. */
  lemma TwoChildren(items: seq<Item>, x: Item, y: Item, a: Item, b: Item, f: nat)
    requires Acyclic(items, y) && a != b
    requires ParentItem(items, a) == Some(y) && ParentItem(items, b) == Some(y)
    ensures !(Below(items, x, a, f) && Below(items, x, b, f))
  {
    if Below(items, x, a, f) && Below(items, x, b, f) {
      var ka: nat :| ka < f && Up(items, x, ka) == Some(a);
      var kb: nat :| kb < f && Up(items, x, kb) == Some(b);
      assert Up(items, x, ka + 1) == Some(y) && Up(items, x, kb + 1) == Some(y);
      if ka < kb {
        ChainMeets(items, x, y, ka + 1, kb + 1);
      } else if kb < ka {
        ChainMeets(items, x, y, kb + 1, ka + 1);
      }
    }
  }

  /** Among the children of an item on no cycle, with no child listed
      twice, at most one has `x` in its subtree. */
  lemma ChildrenExclusive(items: seq<Item>, x: Item, y: Item, cs: seq<Item>, f: nat)
    requires Acyclic(items, y) && NoDup(cs)
    requires forall c :: c in cs ==> ParentItem(items, c) == Some(y)
    ensures AtMostOneBelow(items, x, cs, f)
  {
    forall i, j | 0 <= i < j < |cs| ensures !(Below(items, x, cs[i], f) && Below(items, x, cs[j], f)) {
      assert cs[i] in cs && cs[j] in cs;
      TwoChildren(items, x, y, cs[i], cs[j], f);
    }
  }

  /** Two different roots never both have `x` in their subtrees. */
  lemma TwoRoots(items: seq<Item>, x: Item, a: Item, b: Item, f: nat)
    requires a != b && IsRootIn(a, Ids(items)) && IsRootIn(b, Ids(items))
    ensures !(Below(items, x, a, f) && Below(items, x, b, f))
  {
    if Below(items, x, a, f) && Below(items, x, b, f) {
      var ka: nat :| ka < f && Up(items, x, ka) == Some(a);
      var kb: nat :| kb < f && Up(items, x, kb) == Some(b);
      if ka < kb {
        PastRoot(items, x, ka, kb - ka, a);
      } else if kb < ka {
        PastRoot(items, x, kb, ka - kb, b);
      }
    }
  }

  /** Among distinct roots at most one has `x` in its subtree. */
  lemma RootsExclusive(items: seq<Item>, x: Item, rs: seq<Item>, f: nat)
    requires NoDup(rs) && forall r :: r in rs ==> IsRootIn(r, Ids(items))
    ensures AtMostOneBelow(items, x, rs, f)
  {
    forall i, j | 0 <= i < j < |rs| ensures !(Below(items, x, rs[i], f) && Below(items, x, rs[j], f)) {
      assert rs[i] in rs && rs[j] in rs;
      TwoRoots(items, x, rs[i], rs[j], f);
    }
  }

  ghost predicate AtMostOneBelow(items: seq<Item>, x: Item, xs: seq<Item>, f: nat) {
    forall i, j :: 0 <= i < j < |xs| ==> !(Below(items, x, xs[i], f) && Below(items, x, xs[j], f))
  }

  /** Some sibling from position `k` on has `x` in its subtree. */
  ghost predicate BelowSome(items: seq<Item>, x: Item, xs: seq<Item>, k: nat, f: nat) {
    exists i :: k <= i < |xs| && Below(items, x, xs[i], f)
  }

  lemma {:induction false} TreeOnce(items: seq<Item>, y: Item, depth: nat, prefix: string, isLast: bool, fuel: nat, x: Item)
    requires DistinctIds(items) && y in items && Acyclic(items, y) && x in items
    ensures OnceIn(Tree(ChildrenFn(items), y, depth, prefix, isLast, fuel), x, Below(items, x, y, fuel))
    decreases fuel, 0
  {
    if fuel > 0 {
      ChildrenOnce(items, y, depth + 1, ChildPrefix(depth, prefix, isLast), fuel - 1, x);
      BelowTree(items, x, y, fuel);
      TreeOnceStep(items, y, depth, prefix, isLast, fuel, x,
        Below(items, x, y, fuel), BelowSome(items, x, ChildrenOf(items, y.id), 0, fuel - 1));
    }
  }

  /** The count for a subtree from the count for its children's subtrees. */
  lemma TreeOnceStep(items: seq<Item>, y: Item, depth: nat, prefix: string, isLast: bool, fuel: nat, x: Item,
                     below: bool, belowChild: bool)
    requires fuel > 0
    requires OnceIn(Forest(ChildrenFn(items), ChildrenOf(items, y.id), 0, depth + 1, ChildPrefix(depth, prefix, isLast), fuel - 1), x,
      belowChild)
    requires (if below then 1 else 0) == (if x == y then 1 else 0) + (if belowChild then 1 else 0)
    ensures OnceIn(Tree(ChildrenFn(items), y, depth, prefix, isLast, fuel), x, below)
  {
    TreeOcc(items, y, depth, prefix, isLast, fuel, x);
  }

  /** The children's subtrees of `y` list `x` once if it lies below one of
      them, and not otherwise. */
  lemma {:induction false} ChildrenOnce(items: seq<Item>, y: Item, depth: nat, prefix: string, fuel: nat, x: Item)
    requires DistinctIds(items) && y in items && Acyclic(items, y) && x in items
    ensures OnceIn(Forest(ChildrenFn(items), ChildrenOf(items, y.id), 0, depth, prefix, fuel), x,
      BelowSome(items, x, ChildrenOf(items, y.id), 0, fuel))
    decreases fuel, 2
  {
    var cs := ChildrenOf(items, y.id);
    ChildrenFit(items, y);
    ChildrenExclusive(items, x, y, cs, fuel);
    ForestOnce(items, cs, 0, depth, prefix, fuel, x);
  }

  /** A subtree lists its root once, then its children's subtrees. */
  lemma TreeOcc(items: seq<Item>, y: Item, depth: nat, prefix: string, isLast: bool, fuel: nat, x: Item)
    requires fuel > 0
    ensures Occ(Tree(ChildrenFn(items), y, depth, prefix, isLast, fuel), x) ==
      (if x == y then 1 else 0) +
      Occ(Forest(ChildrenFn(items), ChildrenOf(items, y.id), 0, depth + 1, ChildPrefix(depth, prefix, isLast), fuel - 1), x)
  {
    var h := [Placed(y, depth, OwnPrefix(depth, prefix, isLast))];
    TreeUnfold(ChildrenFn(items), y, depth, prefix, isLast, fuel);
    assert ChildrenFn(items)(y.id) == ChildrenOf(items, y.id);
    OccAppend(h, Forest(ChildrenFn(items), ChildrenOf(items, y.id), 0, depth + 1, ChildPrefix(depth, prefix, isLast), fuel - 1), x);
    assert h[..0] == [];
  }

  /** `x` is in the subtree of `y` either as `y` itself or below one of its
      children, never both. */
  lemma BelowTree(items: seq<Item>, x: Item, y: Item, f: nat)
    requires DistinctIds(items) && x in items && y in items && Acyclic(items, y) && f > 0
    ensures (if Below(items, x, y, f) then 1 else 0) ==
      (if x == y then 1 else 0) + (if BelowSome(items, x, ChildrenOf(items, y.id), 0, f - 1) then 1 else 0)
  {
    var cs := ChildrenOf(items, y.id);
    BelowSplit(items, x, y, f);
    if exists c :: c in cs && Below(items, x, c, f - 1) {
      var c :| c in cs && Below(items, x, c, f - 1);
      var i :| 0 <= i < |cs| && cs[i] == c;
      assert BelowSome(items, x, cs, 0, f - 1);
    }
    if BelowSome(items, x, cs, 0, f - 1) {
      var i :| 0 <= i < |cs| && Below(items, x, cs[i], f - 1);
      assert cs[i] in cs;
      ChildrenOfParent(items, y, cs[i]);
      NotBelowOwnChild(items, y, cs[i], f - 1);
    }
  }

  /** The children of an input item on no cycle: input items on no cycle,
      each listed once, whose parent is that item. */
  lemma ChildrenFit(items: seq<Item>, y: Item)
    requires DistinctIds(items) && y in items && Acyclic(items, y)
    ensures NoDup(ChildrenOf(items, y.id))
    ensures forall c :: c in ChildrenOf(items, y.id) ==> c in items && ParentItem(items, c) == Some(y) && Acyclic(items, c)
  {
    ChildrenNoDup(items, y.id);
    forall c | c in ChildrenOf(items, y.id) ensures c in items && ParentItem(items, c) == Some(y) && Acyclic(items, c) {
      ChildrenOfParent(items, y, c);
      ChildAcyclic(items, y, c);
    }
  }

  lemma {:induction false} ForestOnce(items: seq<Item>, xs: seq<Item>, k: nat, depth: nat, prefix: string, fuel: nat, x: Item)
    requires DistinctIds(items) && x in items
    requires forall c :: c in xs ==> c in items && Acyclic(items, c)
    requires AtMostOneBelow(items, x, xs, fuel)
    ensures OnceIn(Forest(ChildrenFn(items), xs, k, depth, prefix, fuel), x, BelowSome(items, x, xs, k, fuel))
    decreases fuel, 1, |xs| - k
  {
    if k < |xs| {
      assert xs[k] in xs;
      ForestUnfold(ChildrenFn(items), xs, k, depth, prefix, fuel);
      TreeOnce(items, xs[k], depth, prefix, k == |xs| - 1, fuel, x);
      ForestOnce(items, xs, k + 1, depth, prefix, fuel, x);
      OccAppend(Tree(ChildrenFn(items), xs[k], depth, prefix, k == |xs| - 1, fuel), Forest(ChildrenFn(items), xs, k + 1, depth, prefix, fuel), x);
      BelowSomeStep(items, x, xs, k, fuel);
    }
  }

  lemma BelowSomeStep(items: seq<Item>, x: Item, xs: seq<Item>, k: nat, f: nat)
    requires k < |xs| && AtMostOneBelow(items, x, xs, f)
    ensures BelowSome(items, x, xs, k, f) <==> Below(items, x, xs[k], f) || BelowSome(items, x, xs, k + 1, f)
    ensures Below(items, x, xs[k], f) ==> !BelowSome(items, x, xs, k + 1, f)
  {
  }

  // --- lists without repeats ---------------------------------------------------

  /** With distinct ids, no item is listed twice. */
  lemma {:induction false} DistinctItems(items: seq<Item>)
    requires DistinctIds(items)
    ensures forall e :: multiset(items)[e] <= 1
  {
    if |items| > 0 {
      var init := items[..|items| - 1];
      var last := items[|items| - 1];
      assert DistinctIds(init);
      DistinctItems(init);
      assert items == init + [last];
      assert last !in init;
    }
  }

  lemma {:induction false} ChildrenInSub(xs: seq<Item>, ids: set<string>, id: string)
    ensures multiset(ChildrenIn(xs, ids, id)) <= multiset(xs)
  {
    if |xs| > 0 {
      ChildrenInSub(xs[..|xs| - 1], ids, id);
      assert xs == xs[..|xs| - 1] + [xs[|xs| - 1]];
    }
  }

  lemma {:induction false} RootsInSub(xs: seq<Item>, ids: set<string>)
    ensures multiset(RootsIn(xs, ids)) <= multiset(xs)
  {
    if |xs| > 0 {
      RootsInSub(xs[..|xs| - 1], ids);
      assert xs == xs[..|xs| - 1] + [xs[|xs| - 1]];
    }
  }

  /** A list holding nothing twice has no repeated position. */
  lemma MultisetNoDup<T>(s: seq<T>)
    requires forall e :: multiset(s)[e] <= 1
    ensures NoDup(s)
  {
    forall i, j | 0 <= i < j < |s| ensures s[i] != s[j] {
      assert s == s[..j] + s[j..];
      assert s[i] in s[..j] && s[j] in s[j..];
      assert multiset(s)[s[j]] == multiset(s[..j])[s[j]] + multiset(s[j..])[s[j]];
    }
  }

  lemma ChildrenNoDup(items: seq<Item>, id: string)
    requires DistinctIds(items)
    ensures NoDup(ChildrenOf(items, id))
  {
    var cs := ChildrenIn(items, Ids(items), id);
    DistinctItems(items);
    ChildrenInSub(items, Ids(items), id);
    SortByOrderLaws(cs);
    MultisetNoDup(ChildrenOf(items, id));
  }

  lemma RootsNoDup(items: seq<Item>)
    requires DistinctIds(items)
    ensures NoDup(SortByOrder(RootsIn(items, Ids(items))))
  {
    var rs := RootsIn(items, Ids(items));
    DistinctItems(items);
    RootsInSub(items, Ids(items));
    SortByOrderLaws(rs);
    MultisetNoDup(SortByOrder(rs));
  }

  /** A list without repeats, drawn from `t`, is no longer than `t`. */
  lemma {:induction false} NoDupWithin<T>(s: seq<T>, t: seq<T>)
    requires NoDup(s) && forall e :: e in s ==> e in t
    ensures |s| <= |t|
    decreases |s|
  {
    if |s| > 0 {
      var e := s[|s| - 1];
      var s' := s[..|s| - 1];
      assert e in s;
      var i :| 0 <= i < |t| && t[i] == e;
      var t' := t[..i] + t[i + 1..];
      forall e' | e' in s' ensures e' in t' {
        var j :| 0 <= j < |s'| && s'[j] == e';
        assert e' != e && e' == s[j] && e' in s;
        var m :| 0 <= m < |t| && t[m] == e';
        if m < i {
          assert t'[m] == e';
        } else {
          assert t'[m - 1] == e';
        }
      }
      NoDupWithin(s', t');
    }
  }

  // --- a chain that reaches a root is shorter than the input -----------------

  /** The first `n + 1` links of the chain of `x`. */
  function Chain(items: seq<Item>, x: Item, n: nat): (r: seq<Option<Item>>)
    ensures |r| == n + 1 && forall i :: 0 <= i <= n ==> r[i] == Up(items, x, i)
  {
    seq(n + 1, i requires 0 <= i <= n => Up(items, x, i))
  }

  /** Every input item, as an option. */
  function Somes(items: seq<Item>): (r: seq<Option<Item>>)
    ensures |r| == |items| && forall i :: 0 <= i < |items| ==> r[i] == Some(items[i])
  {
    seq(|items|, i requires 0 <= i < |items| => Some(items[i]))
  }

  /** The chain of `x` cannot return to an item it passed through before
      the root it ends at. */
  lemma ChainSteps(items: seq<Item>, x: Item, n: nat, i: nat, j: nat)
    requires RootAfter(items, x, n) && i < j <= n
    ensures Up(items, x, i) != Up(items, x, j)
  {
    var r := Up(items, x, n).value;
    UpDefined(items, x, i, n);
    var z := Up(items, x, i).value;
    UpAdd(items, x, i, n - i, z);
    if Up(items, x, j) == Some(z) {
      UpAdd(items, x, j, n - i, z);
      PastRoot(items, x, n, j - i, r);
    }
  }

  /** A chain ending at a root repeats no item. */
  lemma ChainNoDup(items: seq<Item>, x: Item, n: nat)
    requires RootAfter(items, x, n)
    ensures NoDup(Chain(items, x, n))
  {
    var c := Chain(items, x, n);
    forall i, j | 0 <= i < j < |c| ensures c[i] != c[j] {
      ChainSteps(items, x, n, i, j);
    }
  }

  /** The links of a chain ending at a root are input items. */
  lemma ChainWithin(items: seq<Item>, x: Item, n: nat)
    requires x in items && RootAfter(items, x, n)
    ensures forall e :: e in Chain(items, x, n) ==> e in Somes(items)
  {
    var c := Chain(items, x, n);
    forall e | e in c ensures e in Somes(items) {
      var i :| 0 <= i < |c| && c[i] == e;
      UpDefined(items, x, i, n);
      UpInItems(items, x, i);
      var m :| 0 <= m < |items| && items[m] == e.value;
      assert Somes(items)[m] == e;
    }
  }

  /** Pigeonhole: a chain that reaches a root visits distinct input items,
      so it has fewer steps than there are items. */
  lemma ChainShort(items: seq<Item>, x: Item, n: nat)
    requires x in items && RootAfter(items, x, n)
    ensures n < |items|
  {
    ChainNoDup(items, x, n);
    ChainWithin(items, x, n);
    NoDupWithin(Chain(items, x, n), Somes(items));
  }

  /** `build_hierarchy` with distinct ids: an item is listed exactly once
      when its parent chain reaches a root, and not at all when it lies on
      a cycle of parent ids or below one (or is no input item). */
  lemma HierarchyOnce(items: seq<Item>, x: Item)
    requires DistinctIds(items)
    ensures Occ(Hierarchy(items), x) == if x in items && Grounded(items, x) then 1 else 0
  {
    if x !in items {
      HierarchyMembers(items);
      OccNone(Hierarchy(items), x);
    } else {
      var rs := SortByOrder(RootsIn(items, Ids(items)));
      SortedRoots(items);
      RootsNoDup(items);
      forall r | r in rs ensures Acyclic(items, r) {
        RootAcyclic(items, r);
      }
      RootsExclusive(items, x, rs, |items|);
      ForestOnce(items, rs, 0, 0, "", |items|, x);
      GroundedOnTop(items, x);
    }
  }

  /** An input item lies below one of the sorted roots within |items| levels
      exactly when its chain reaches a root. */
  lemma GroundedOnTop(items: seq<Item>, x: Item)
    requires x in items
    ensures BelowSome(items, x, SortByOrder(RootsIn(items, Ids(items))), 0, |items|) <==> Grounded(items, x)
  {
    var rs := SortByOrder(RootsIn(items, Ids(items)));
    SortedRoots(items);
    if BelowSome(items, x, rs, 0, |items|) {
      var i :| 0 <= i < |rs| && Below(items, x, rs[i], |items|);
      var k: nat :| k < |items| && Up(items, x, k) == Some(rs[i]);
      assert rs[i] in rs;
      assert RootAfter(items, x, k);
    }
    if Grounded(items, x) {
      var n: nat :| RootAfter(items, x, n);
      ChainShort(items, x, n);
      UpInItems(items, x, n);
      var r := Up(items, x, n).value;
      var i :| 0 <= i < |rs| && rs[i] == r;
      assert Below(items, x, rs[i], |items|);
    }
  }

  // --- exact prefixes ----------------------------------------------------------

  /** `c` is the last of its parent's sorted children. */
  predicate LastChild(items: seq<Item>, c: Item) {
    match c.parent
      case None => false
      case Some(pid) => var cs := ChildrenOf(items, pid); |cs| > 0 && cs[|cs| - 1] == c
  }

  /** The prefix `traverse` hands to the children of `y` placed at depth
      `d`: nothing under a root, else the prefix handed to `y` followed by
      the blank continuation when `y` is its parent's last child and the
      vertical bar otherwise. */
  function ChildPrefixAt(items: seq<Item>, y: Item, d: nat): string
    decreases d
  {
    if d == 0 then ""
    else match ParentItem(items, y)
      case None => ""
      case Some(p) => ChildPrefixAt(items, p, d - 1) + Spacer(LastChild(items, y))
  }

  /** The 'tree_prefix' of `x` placed at depth `d`: nothing for a root, else
      the prefix handed down by its parent followed by `LastBranch` when `x`
      is the last of its parent's sorted children and `MidBranch` when not. */
  function PrefixAt(items: seq<Item>, x: Item, d: nat): string {
    if d == 0 then ""
    else match ParentItem(items, x)
      case None => ""
      case Some(p) => ChildPrefixAt(items, p, d - 1) + Connector(LastChild(items, x))
  }

  /** An entry sits under its parent and carries the prefix its ancestry
      determines. */
  predicate PrefixExact(items: seq<Item>, e: Placed) {
    (e.depth > 0 ==> ParentItem(items, e.item).Some?) && e.prefix == PrefixAt(items, e.item, e.depth)
  }

  /** `traverse` is called on `x` with the arguments its ancestry
      determines. */
  predicate PlacedUnder(items: seq<Item>, x: Item, depth: nat, prefix: string, isLast: bool) {
    depth > 0 ==>
      ParentItem(items, x).Some? &&
      prefix == ChildPrefixAt(items, ParentItem(items, x).value, depth - 1) &&
      isLast == LastChild(items, x)
  }

  /** `traverse` is called on each of `xs[k..]` with the arguments its
      ancestry determines. */
  predicate AllPlaced(items: seq<Item>, xs: seq<Item>, k: nat, depth: nat, prefix: string) {
    forall i :: k <= i < |xs| ==> xs[i] in items && PlacedUnder(items, xs[i], depth, prefix, i == |xs| - 1)
  }

  /** Every entry of `out` is exact. */
  predicate AllExact(items: seq<Item>, out: seq<Placed>) {
    forall e :: e in out ==> PrefixExact(items, e)
  }

  /** The children of an item called with the arguments its ancestry
      determines are called with the arguments theirs determines. */
  lemma ChildrenPlaced(items: seq<Item>, x: Item, depth: nat, prefix: string, isLast: bool)
    requires DistinctIds(items) && x in items && PlacedUnder(items, x, depth, prefix, isLast)
    ensures AllPlaced(items, ChildrenOf(items, x.id), 0, depth + 1, ChildPrefix(depth, prefix, isLast))
  {
    var cs := ChildrenOf(items, x.id);
    ChildrenNoDup(items, x.id);
    assert ChildPrefix(depth, prefix, isLast) == ChildPrefixAt(items, x, depth);
    forall i | 0 <= i < |cs|
      ensures cs[i] in items && PlacedUnder(items, cs[i], depth + 1, ChildPrefix(depth, prefix, isLast), i == |cs| - 1)
    {
      assert cs[i] in cs;
      ChildrenOfParent(items, x, cs[i]);
      assert cs[i].parent == Some(x.id);
      assert LastChild(items, cs[i]) <==> cs[|cs| - 1] == cs[i];
    }
  }

  lemma {:induction false} TreePrefixExact(items: seq<Item>, x: Item, depth: nat, prefix: string, isLast: bool, fuel: nat)
    requires DistinctIds(items) && x in items && PlacedUnder(items, x, depth, prefix, isLast)
    ensures AllExact(items, Tree(ChildrenFn(items), x, depth, prefix, isLast, fuel))
    decreases fuel, 0
  {
    if fuel > 0 {
      ChildrenPlaced(items, x, depth, prefix, isLast);
      ForestPrefixExact(items, ChildrenOf(items, x.id), 0, depth + 1, ChildPrefix(depth, prefix, isLast), fuel - 1);
      TreePrefixStep(items, x, depth, prefix, isLast, fuel);
    }
  }

  /** A subtree's entries are exact when its root's entry and its
      children's subtrees are. */
  lemma TreePrefixStep(items: seq<Item>, x: Item, depth: nat, prefix: string, isLast: bool, fuel: nat)
    requires fuel > 0 && PlacedUnder(items, x, depth, prefix, isLast)
    requires AllExact(items, Forest(ChildrenFn(items), ChildrenOf(items, x.id), 0, depth + 1, ChildPrefix(depth, prefix, isLast), fuel - 1))
    ensures AllExact(items, Tree(ChildrenFn(items), x, depth, prefix, isLast, fuel))
  {
    TreeUnfold(ChildrenFn(items), x, depth, prefix, isLast, fuel);
    assert ChildrenFn(items)(x.id) == ChildrenOf(items, x.id);
    assert PrefixExact(items, Placed(x, depth, OwnPrefix(depth, prefix, isLast)));
  }

  lemma {:induction false} ForestPrefixExact(items: seq<Item>, xs: seq<Item>, k: nat, depth: nat, prefix: string, fuel: nat)
    requires DistinctIds(items)
    requires AllPlaced(items, xs, k, depth, prefix)
    ensures AllExact(items, Forest(ChildrenFn(items), xs, k, depth, prefix, fuel))
    decreases fuel, 1, |xs| - k
  {
    if k < |xs| {
      ForestUnfold(ChildrenFn(items), xs, k, depth, prefix, fuel);
      assert AllExact(items, Forest(ChildrenFn(items), xs, k, depth, prefix, fuel)) <==>
        AllExact(items, Tree(ChildrenFn(items), xs[k], depth, prefix, k == |xs| - 1, fuel)) &&
        AllExact(items, Forest(ChildrenFn(items), xs, k + 1, depth, prefix, fuel));
      TreePrefixExact(items, xs[k], depth, prefix, k == |xs| - 1, fuel);
      ForestPrefixExact(items, xs, k + 1, depth, prefix, fuel);
    }
  }

  /** With distinct ids every 'tree_prefix' is the one its ancestry
      determines: a child's prefix is the prefix its parent hands down
      followed by `LastBranch` exactly when it is the last of its parent's
      children sorted by order, and `MidBranch` otherwise. */
  lemma HierarchyPrefixExact(items: seq<Item>)
    requires DistinctIds(items)
    ensures forall e :: e in Hierarchy(items) ==> PrefixExact(items, e)
  {
    if |items| > 0 {
      var rs := SortByOrder(RootsIn(items, Ids(items)));
      SortedRoots(items);
      assert forall i :: 0 <= i < |rs| ==> rs[i] in rs;
      ForestPrefixExact(items, rs, 0, 0, "", |items|);
      assert AllExact(items, Hierarchy(items));
    }
  }

  // --- order between levels ------------------------------------------------------

  /** The children of `ys`, in order: each one's child list in turn. */
  function Kids(childrenOf: string -> seq<Item>, ys: seq<Item>): seq<Item> {
    if |ys| == 0 then []
    else Kids(childrenOf, ys[..|ys| - 1]) + childrenOf(ys[|ys| - 1].id)
  }

  lemma {:induction false} KidsAppend(childrenOf: string -> seq<Item>, a: seq<Item>, b: seq<Item>)
    ensures Kids(childrenOf, a + b) == Kids(childrenOf, a) + Kids(childrenOf, b)
    decreases |b|
  {
    if |b| == 0 {
      assert a + b == a;
    } else {
      assert (a + b)[..|a + b| - 1] == a + b[..|b| - 1];
      KidsAppend(childrenOf, a, b[..|b| - 1]);
    }
  }

  /** In `out`, depth `level + 1` lists the children of what depth `level`
      lists, in order. */
  predicate LevelFollows(childrenOf: string -> seq<Item>, out: seq<Placed>, level: nat) {
    AtDepth(out, level + 1) == Kids(childrenOf, AtDepth(out, level))
  }

  lemma {:induction false} TreeLevels(childrenOf: string -> seq<Item>, x: Item, depth: nat, prefix: string, isLast: bool, fuel: nat, level: nat)
    requires depth <= level && level + 1 < depth + fuel
    ensures LevelFollows(childrenOf, Tree(childrenOf, x, depth, prefix, isLast, fuel), level)
    decreases fuel, 0
  {
    if level == depth {
      TreeFirstLevel(childrenOf, x, depth, prefix, isLast, fuel);
    } else {
      ForestLevels(childrenOf, childrenOf(x.id), 0, depth + 1, ChildPrefix(depth, prefix, isLast), fuel - 1, level);
      TreeDeeper(childrenOf, x, depth, prefix, isLast, fuel, level);
    }
  }

  /** Below its root a subtree lists at each depth what its children's
      subtrees list there. */
  lemma TreeDeeper(childrenOf: string -> seq<Item>, x: Item, depth: nat, prefix: string, isLast: bool, fuel: nat, level: nat)
    requires fuel > 0 && depth < level
    requires LevelFollows(childrenOf, Forest(childrenOf, childrenOf(x.id), 0, depth + 1, ChildPrefix(depth, prefix, isLast), fuel - 1), level)
    ensures LevelFollows(childrenOf, Tree(childrenOf, x, depth, prefix, isLast, fuel), level)
  {
    var h := [Placed(x, depth, OwnPrefix(depth, prefix, isLast))];
    var f := Forest(childrenOf, childrenOf(x.id), 0, depth + 1, ChildPrefix(depth, prefix, isLast), fuel - 1);
    var t := Tree(childrenOf, x, depth, prefix, isLast, fuel);
    TreeUnfold(childrenOf, x, depth, prefix, isLast, fuel);
    assert t == h + f;
    AtDepthAppend(h, f, level + 1);
    AtDepthAppend(h, f, level);
    assert h[..0] == [];
    assert AtDepth(h, level) == [] && AtDepth(h, level + 1) == [];
    assert AtDepth(t, level) == AtDepth(f, level);
    assert AtDepth(t, level + 1) == AtDepth(f, level + 1);
  }

  /** The level right below a subtree's root is that root's child list. */
  lemma TreeFirstLevel(childrenOf: string -> seq<Item>, x: Item, depth: nat, prefix: string, isLast: bool, fuel: nat)
    requires fuel > 1
    ensures AtDepth(Tree(childrenOf, x, depth, prefix, isLast, fuel), depth) == [x]
    ensures LevelFollows(childrenOf, Tree(childrenOf, x, depth, prefix, isLast, fuel), depth)
  {
    var h := [Placed(x, depth, OwnPrefix(depth, prefix, isLast))];
    var cp := ChildPrefix(depth, prefix, isLast);
    var f := Forest(childrenOf, childrenOf(x.id), 0, depth + 1, cp, fuel - 1);
    TreeTop(childrenOf, x, depth, prefix, isLast, fuel);
    TreeUnfold(childrenOf, x, depth, prefix, isLast, fuel);
    AtDepthAppend(h, f, depth + 1);
    assert h[..0] == [];
    ForestTop(childrenOf, childrenOf(x.id), 0, depth + 1, cp, fuel - 1);
    assert childrenOf(x.id)[0..] == childrenOf(x.id);
    assert [x][..0] == [];
  }

  lemma {:induction false} ForestLevels(childrenOf: string -> seq<Item>, xs: seq<Item>, k: nat, depth: nat, prefix: string, fuel: nat, level: nat)
    requires depth <= level && level + 1 < depth + fuel
    ensures LevelFollows(childrenOf, Forest(childrenOf, xs, k, depth, prefix, fuel), level)
    decreases fuel, 1, |xs| - k
  {
    if k < |xs| {
      TreeLevels(childrenOf, xs[k], depth, prefix, k == |xs| - 1, fuel, level);
      ForestLevels(childrenOf, xs, k + 1, depth, prefix, fuel, level);
      ForestLevelsStep(childrenOf, xs, k, depth, prefix, fuel, level);
    } else {
      assert Forest(childrenOf, xs, k, depth, prefix, fuel) == [];
    }
  }

  /** Levels follow in a run of siblings when they follow in its first
      subtree and in the rest. */
  lemma ForestLevelsStep(childrenOf: string -> seq<Item>, xs: seq<Item>, k: nat, depth: nat, prefix: string, fuel: nat, level: nat)
    requires k < |xs|
    requires LevelFollows(childrenOf, Tree(childrenOf, xs[k], depth, prefix, k == |xs| - 1, fuel), level)
    requires LevelFollows(childrenOf, Forest(childrenOf, xs, k + 1, depth, prefix, fuel), level)
    ensures LevelFollows(childrenOf, Forest(childrenOf, xs, k, depth, prefix, fuel), level)
  {
    var t := Tree(childrenOf, xs[k], depth, prefix, k == |xs| - 1, fuel);
    var r := Forest(childrenOf, xs, k + 1, depth, prefix, fuel);
    ForestUnfold(childrenOf, xs, k, depth, prefix, fuel);
    AtDepthAppend(t, r, level);
    AtDepthAppend(t, r, level + 1);
    KidsAppend(childrenOf, AtDepth(t, level), AtDepth(r, level));
  }

  /** Each level of the layout lists, in order, the sorted children of the
      items on the level above, parent by parent. */
  lemma HierarchyLevels(items: seq<Item>, level: nat)
    requires level + 1 < |items|
    ensures AtDepth(Hierarchy(items), level + 1) == Kids(ChildrenFn(items), AtDepth(Hierarchy(items), level))
  {
    var rs := SortByOrder(RootsIn(items, Ids(items)));
    assert Hierarchy(items) == Forest(ChildrenFn(items), rs, 0, 0, "", |items|);
    ForestLevels(ChildrenFn(items), rs, 0, 0, "", |items|, level);
    assert LevelFollows(ChildrenFn(items), Hierarchy(items), level);
  }
}
