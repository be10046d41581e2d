/** Directories and link counts of kernel/fs.c and kernel/sysfile.c: dirlookup, dirlink, isdirempty, create, link
    and unlink, from the point where the paths have been resolved to inodes. Link is two steps, because it counts
    the new name before it holds the lock of the directory that gets it. */
module Namespace {
  import opened Prelude

  const ROOTINO: nat := 1
  const SHRT_MAX := 32767
  const SHRT_MIN := -32768

  datatype Kind = File | Device(major: int, minor: int) | Dir

  /** A directory entry; inum 0 marks an unused slot. */
  datatype Dirent = Dirent(inum: nat, name: string)

  datatype Node = Node(kind: Kind, nlink: int, entries: seq<Dirent>)

  type Nodes = map<nat, Node>

  // ----- The short nlink -----

  function Bump(n: int): int { if n == SHRT_MAX then SHRT_MIN else n + 1 }

  function Drop(n: int): int { if n == SHRT_MIN then SHRT_MAX else n - 1 }

  // ----- Names -----

  predicate LinkedDir(n: Node) { n.kind.Dir? && n.nlink > 0 }

  /** Entry j of linked directory d names inode i; "." is not counted. */
  ghost predicate NamedAt(nodes: Nodes, i: nat, d: nat, j: nat) {
    d in nodes && LinkedDir(nodes[d]) && j < |nodes[d].entries|
    && nodes[d].entries[j].inum == i && nodes[d].entries[j].name != "."
  }

  ghost function Names(nodes: Nodes, i: nat): set<(nat, nat)> {
    set d: nat, j: nat | d in nodes && 0 <= j < |nodes[d].entries| && NamedAt(nodes, i, d, j) :: (d, j)
  }

  predicate Holds(es: seq<Dirent>, name: string, j: nat) { j < |es| && es[j].inum != 0 && es[j].name == name }

  ghost predicate Absent(es: seq<Dirent>, name: string) { forall j: nat :: !Holds(es, name, j) }

  /** The first unused slot, or the end. */
  ghost predicate FreeSlot(es: seq<Dirent>, j: nat) {
    j <= |es| && (forall k :: 0 <= k < j ==> es[k].inum != 0) && (j < |es| ==> es[j].inum == 0)
  }

  // ----- Invariant -----

  ghost predicate UniqueNames(es: seq<Dirent>) {
    forall j, k :: 0 <= j < k < |es| && es[j].inum != 0 && es[k].inum != 0 ==> es[j].name != es[k].name
  }

  /** "." and ".." come first, and nowhere else. */
  ghost predicate DotsFirst(es: seq<Dirent>, d: nat) {
    && |es| >= 2 && es[0] == Dirent(d, ".") && es[1].name == ".." && es[1].inum != 0
    && forall j :: 2 <= j < |es| && es[j].inum != 0 ==> es[j].name != "." && es[j].name != ".."
  }

  ghost predicate DirOk(n: Node, d: nat) {
    n.kind.Dir? ==> UniqueNames(n.entries) && DotsFirst(n.entries, d) && (n.nlink <= 0 ==> Bare(n.entries))
  }

  /** Nothing but "." and "..". */
  ghost predicate Bare(es: seq<Dirent>) { forall j :: 2 <= j < |es| ==> es[j].inum == 0 }

  ghost predicate DirsOk(nodes: Nodes) { 0 !in nodes && forall d :: d in nodes ==> DirOk(nodes[d], d) }

  /** The link count of i is the number of entries that name it, and of links under way. */
  ghost predicate CountOk(nodes: Nodes, pending: multiset<nat>, i: nat)
    requires i in nodes
  {
    nodes[i].nlink == |Names(nodes, i)| + pending[i] <= SHRT_MAX
  }

  ghost predicate CountsOk(nodes: Nodes, pending: multiset<nat>) {
    && (forall i :: i in nodes ==> CountOk(nodes, pending, i))
    && (forall i: nat, d: nat, j: nat :: NamedAt(nodes, i, d, j) && i != 0 ==> i in nodes)
    && (forall i :: i in pending ==> i in nodes && !nodes[i].kind.Dir?)
  }

  /** Where ".." leads. */
  function Up(n: Node): nat { if |n.entries| >= 2 then n.entries[1].inum else 0 }

  /** Slot j of linked directory p, past "." and "..", names d. */
  ghost predicate ChildAt(nodes: Nodes, d: nat, p: nat, j: nat) {
    p in nodes && LinkedDir(nodes[p]) && 2 <= j < |nodes[p].entries| && nodes[p].entries[j].inum == d
  }

  ghost predicate RootOk(nodes: Nodes) {
    ROOTINO in nodes && LinkedDir(nodes[ROOTINO]) && Up(nodes[ROOTINO]) == ROOTINO
  }

  /** ".." of d leads to a linked directory nearer the root that names d. */
  ghost predicate HasParent(nodes: Nodes, depth: map<nat, nat>, d: nat)
    requires d in nodes
  {
    var p := Up(nodes[d]);
    && p in nodes && LinkedDir(nodes[p]) && p in depth && d in depth && depth[p] < depth[d]
    && exists j: nat :: ChildAt(nodes, d, p, j)
  }

  /** A directory that some linked directory p names at j is linked, has p as its parent and no second name. */
  ghost predicate ChildOk(nodes: Nodes, d: nat, p: nat, j: nat)
    requires d in nodes
  {
    && d != ROOTINO && LinkedDir(nodes[d]) && Up(nodes[d]) == p
    && forall k: nat :: ChildAt(nodes, d, p, k) ==> k == j
  }

  ghost predicate TreeOk(nodes: Nodes, depth: map<nat, nat>) {
    && RootOk(nodes) && ROOTINO in depth
    && (forall d :: d in nodes && LinkedDir(nodes[d]) && d != ROOTINO ==> HasParent(nodes, depth, d))
    && (forall d: nat, p: nat, j: nat :: ChildAt(nodes, d, p, j) && d in nodes && nodes[d].kind.Dir? ==>
           ChildOk(nodes, d, p, j))
  }

  datatype Clause = Dirs | Counts | Tree

  ghost predicate ClauseOk(nodes: Nodes, depth: map<nat, nat>, pending: multiset<nat>, c: Clause) {
    match c
    case Dirs => DirsOk(nodes)
    case Counts => CountsOk(nodes, pending)
    case Tree => TreeOk(nodes, depth)
  }

  ghost predicate NsOk(nodes: Nodes, depth: map<nat, nat>, pending: multiset<nat>) { forall c :: ClauseOk(nodes, depth, pending, c) }

  ghost predicate EachClause(nodes: Nodes, depth: map<nat, nat>, pending: multiset<nat>) {
    && DirsOk(nodes)
    && CountsOk(nodes, pending)
    && TreeOk(nodes, depth)
  }

  lemma Clauses(nodes: Nodes, depth: map<nat, nat>, pending: multiset<nat>)
    ensures NsOk(nodes, depth, pending) <==> EachClause(nodes, depth, pending)
  {
    hide DirsOk, CountsOk, TreeOk;
    if NsOk(nodes, depth, pending) {
      assert ClauseOk(nodes, depth, pending, Dirs);
      assert ClauseOk(nodes, depth, pending, Counts);
      assert ClauseOk(nodes, depth, pending, Tree);
    }
  }

  // ----- What the operations leave -----

  function SetAt(es: seq<Dirent>, j: nat, e: Dirent): seq<Dirent>
    requires j <= |es|
  {
    if j < |es| then es[j := e] else es + [e]
  }

  function Put(nodes: Nodes, d: nat, j: nat, e: Dirent): Nodes
    requires d in nodes && j <= |nodes[d].entries|
  {
    nodes[d := nodes[d].(entries := SetAt(nodes[d].entries, j, e))]
  }

  function Links(nodes: Nodes, i: nat, n: int): Nodes
    requires i in nodes
  {
    nodes[i := nodes[i].(nlink := n)]
  }

  function NewNode(kind: Kind, i: nat, dp: nat): Node {
    Node(kind, 1, if kind.Dir? then [Dirent(i, "."), Dirent(dp, "..")] else [])
  }

  /** create: a new inode ip, named at slot j of dp. */
  function Created(nodes: Nodes, dp: nat, j: nat, name: string, ip: nat, kind: Kind): Nodes
    requires dp in nodes && ip !in nodes && j <= |nodes[dp].entries|
  {
    var n := Put(nodes[ip := NewNode(kind, ip, dp)], dp, j, Dirent(ip, name));
    if kind.Dir? then Links(n, dp, Bump(n[dp].nlink)) else n
  }

  /** unlink: slot j of dp, which named i, is cleared. */
  function Unlinked(nodes: Nodes, dp: nat, j: nat, i: nat): Nodes
    requires dp in nodes && i in nodes && j < |nodes[dp].entries|
  {
    var n := Put(nodes, dp, j, Dirent(0, ""));
    var m := if nodes[i].kind.Dir? then Links(n, dp, Drop(n[dp].nlink)) else n;
    Links(m, i, Drop(m[i].nlink))
  }

  /** iput: an inode without links goes when its last reference does. */
  function Released(nodes: Nodes, i: nat, last: bool): Nodes
    requires i in nodes
  {
    if last && nodes[i].nlink == 0 then nodes - {i} else nodes
  }

  // ----- The same, inode by inode -----

  /** Slot j of dp, the first unused one or a new one, holds the name for ip; the other slots are as they were. */
  ghost predicate Entered(n0: Nodes, n1: Nodes, dp: nat, j: nat, name: string, ip: nat) {
    && dp in n0 && dp in n1 && n1[dp].kind == n0[dp].kind && FreeSlot(n0[dp].entries, j)
    && var before, after := n0[dp].entries, n1[dp].entries;
    && |after| == (if j < |before| then |before| else |before| + 1) && after[j] == Dirent(ip, name)
    && forall k :: 0 <= k < |before| && k != j ==> after[k] == before[k]
  }

  /** Slot j of dp is unused; the other slots are as they were. */
  ghost predicate Cleared(n0: Nodes, n1: Nodes, dp: nat, j: nat) {
    && dp in n0 && dp in n1 && n1[dp].kind == n0[dp].kind && j < |n0[dp].entries| == |n1[dp].entries|
    && n1[dp].entries[j].inum == 0
    && forall k :: 0 <= k < |n0[dp].entries| && k != j ==> n1[dp].entries[k] == n0[dp].entries[k]
  }

  ghost predicate SameBut(n0: Nodes, n1: Nodes, touched: set<nat>) {
    forall i :: i !in touched ==> (i in n1 <==> i in n0) && (i in n0 ==> n1[i] == n0[i])
  }

  /** The new inode is of the kind asked for and has one link; a directory has its two entries, and its parent a
      link more. */
  lemma CreatedDirectly(nodes: Nodes, dp: nat, j: nat, name: string, ip: nat, kind: Kind)
    requires CanCreate(nodes, dp, j, name, ip)
    ensures var n := Created(nodes, dp, j, name, ip, kind);
      && ip in n && n[ip].kind == kind && n[ip].nlink == 1
      && n[ip].entries == (if kind == Dir then [Dirent(ip, "."), Dirent(dp, "..")] else [])
      && Entered(nodes, n, dp, j, name, ip) && SameBut(nodes, n, {ip, dp})
      && n[dp].nlink == if kind == Dir then Bump(nodes[dp].nlink) else nodes[dp].nlink
  {
  }

  /** The name is unused, the inode has a link less, and so has the parent of a directory. */
  lemma UnlinkedDirectly(nodes: Nodes, dp: nat, j: nat, i: nat, last: bool)
    requires CanUnlink(nodes, dp, j, i) && i in nodes && i != dp
    ensures var n := Released(Unlinked(nodes, dp, j, i), i, last);
      && Cleared(nodes, n, dp, j) && SameBut(nodes, n, {i, dp})
      && (i !in n <==> last && Drop(nodes[i].nlink) == 0)
      && (i in n ==> n[i] == nodes[i].(nlink := Drop(nodes[i].nlink)))
      && n[dp].nlink == if nodes[i].kind == Dir then Drop(nodes[dp].nlink) else nodes[dp].nlink
  {
  }

  lemma PutDirectly(nodes: Nodes, dp: nat, j: nat, name: string, ip: nat)
    requires dp in nodes && FreeSlot(nodes[dp].entries, j)
    ensures var n := Put(nodes, dp, j, Dirent(ip, name));
      Entered(nodes, n, dp, j, name, ip) && SameBut(nodes, n, {dp}) && n[dp].nlink == nodes[dp].nlink
  {
  }

  // ----- create -----

  lemma CreatedAt(nodes: Nodes, dp: nat, j: nat, name: string, ip: nat, kind: Kind, i: nat, x: nat, y: nat)
    requires dp in nodes && ip !in nodes && ip != 0 && FreeSlot(nodes[dp].entries, j) && LinkedDir(nodes[dp]) && i != 0
    requires name != "." && (kind.Dir? ==> nodes[dp].nlink < SHRT_MAX)
    ensures NamedAt(Created(nodes, dp, j, name, ip, kind), i, x, y) <==>
            NamedAt(nodes, i, x, y) || (i == ip && x == dp && y == j) || (kind.Dir? && i == dp && x == ip && y == 1)
  {
  }

  lemma CreatedNames(nodes: Nodes, dp: nat, j: nat, name: string, ip: nat, kind: Kind, i: nat)
    requires dp in nodes && ip !in nodes && ip != 0 && FreeSlot(nodes[dp].entries, j) && LinkedDir(nodes[dp]) && i != 0
    requires name != "." && (kind.Dir? ==> nodes[dp].nlink < SHRT_MAX)
    ensures Names(Created(nodes, dp, j, name, ip, kind), i) ==
            Names(nodes, i) + (if i == ip then {(dp, j)} else {}) + if kind.Dir? && i == dp then {(ip, 1)} else {}
    ensures (dp, j) !in Names(nodes, i) && (ip, 1) !in Names(nodes, i)
  {
    forall x: nat, y: nat { CreatedAt(nodes, dp, j, name, ip, kind, i, x, y); }
  }

  /** When create adds a name. */
  ghost predicate CanCreate(nodes: Nodes, dp: nat, j: nat, name: string, ip: nat) {
    dp in nodes && nodes[dp].kind.Dir? && ip !in nodes && ip != 0 && FreeSlot(nodes[dp].entries, j) && Absent(nodes[dp].entries, name)
  }

  lemma NotDots(nodes: Nodes, dp: nat, name: string)
    requires DirsOk(nodes) && dp in nodes && nodes[dp].kind.Dir? && Absent(nodes[dp].entries, name)
    ensures name != "." && name != ".."
  {
    assert DirOk(nodes[dp], dp);
    assert !Holds(nodes[dp].entries, name, 0) && !Holds(nodes[dp].entries, name, 1);
  }

  lemma FreePastDots(nodes: Nodes, dp: nat, j: nat)
    requires DirsOk(nodes) && dp in nodes && nodes[dp].kind.Dir? && FreeSlot(nodes[dp].entries, j)
    ensures 2 <= j
  {
  }

  lemma OtherName(es: seq<Dirent>, name: string, k: nat)
    requires Absent(es, name) && k < |es| && es[k].inum != 0
    ensures es[k].name != name
  {
    assert !Holds(es, name, k);
  }

  lemma AddedUnique(es: seq<Dirent>, j: nat, e: Dirent)
    requires UniqueNames(es) && j <= |es| && (j < |es| ==> es[j].inum == 0) && Absent(es, e.name)
    ensures UniqueNames(SetAt(es, j, e))
  {
    var r := SetAt(es, j, e);
    forall a, b | 0 <= a < b < |r| && r[a].inum != 0 && r[b].inum != 0 ensures r[a].name != r[b].name {
      if a == j {
        OtherName(es, e.name, b);
      } else if b == j {
        OtherName(es, e.name, a);
      }
    }
  }

  lemma AddedDirOk(n: Node, d: nat, j: nat, e: Dirent)
    requires DirOk(n, d) && LinkedDir(n) && FreeSlot(n.entries, j) && Absent(n.entries, e.name) && d != 0
    ensures DirOk(n.(entries := SetAt(n.entries, j, e)), d)
  {
    AddedUnique(n.entries, j, e);
    OtherName(n.entries, e.name, 0);
    OtherName(n.entries, e.name, 1);
  }

  /** What create leaves as it was. */
  lemma CreatedSame(nodes: Nodes, dp: nat, j: nat, name: string, ip: nat, kind: Kind, d: nat)
    requires DirsOk(nodes) && CanCreate(nodes, dp, j, name, ip) && LinkedDir(nodes[dp])
    requires kind.Dir? ==> nodes[dp].nlink < SHRT_MAX
    ensures var n := Created(nodes, dp, j, name, ip, kind);
            n.Keys == nodes.Keys + {ip} && n[ip] == NewNode(kind, ip, dp)
    ensures d in nodes ==> var n := Created(nodes, dp, j, name, ip, kind);
                           && n[d].kind == nodes[d].kind && (LinkedDir(n[d]) <==> LinkedDir(nodes[d]))
                           && (nodes[d].kind.Dir? ==> Up(n[d]) == Up(nodes[d]))
                           && (n[d].nlink == if kind.Dir? && d == dp then nodes[d].nlink + 1 else nodes[d].nlink)
  {
  }

  lemma CreatedDirs(nodes: Nodes, dp: nat, j: nat, name: string, ip: nat, kind: Kind)
    requires DirsOk(nodes) && CanCreate(nodes, dp, j, name, ip) && LinkedDir(nodes[dp])
    requires kind.Dir? ==> nodes[dp].nlink < SHRT_MAX
    ensures DirsOk(Created(nodes, dp, j, name, ip, kind))
  {
    var n := Created(nodes, dp, j, name, ip, kind);
    assert DirOk(nodes[dp], dp);
    AddedDirOk(nodes[dp], dp, j, Dirent(ip, name));
    forall d | d in n ensures DirOk(n[d], d) {
      if d != dp && d != ip { assert n[d] == nodes[d]; }
    }
  }

  lemma NoNames(nodes: Nodes, pending: multiset<nat>, i: nat)
    requires CountsOk(nodes, pending) && i !in nodes && i != 0
    ensures Names(nodes, i) == {} && i !in pending
  {
  }

  lemma CreatedCount(nodes: Nodes, pending: multiset<nat>, dp: nat, j: nat, name: string, ip: nat, kind: Kind, i: nat)
    requires DirsOk(nodes) && CountsOk(nodes, pending) && CanCreate(nodes, dp, j, name, ip) && LinkedDir(nodes[dp])
    requires kind.Dir? ==> nodes[dp].nlink < SHRT_MAX
    requires i in Created(nodes, dp, j, name, ip, kind)
    ensures CountOk(Created(nodes, dp, j, name, ip, kind), pending, i)
  {
    hide Created, Names;
    var n := Created(nodes, dp, j, name, ip, kind);
    NotDots(nodes, dp, name);
    CreatedSame(nodes, dp, j, name, ip, kind, i);
    CreatedNames(nodes, dp, j, name, ip, kind, i);
    if i == ip {
      NoNames(nodes, pending, i);
      assert Names(n, i) == {(dp, j)};
    } else {
      assert CountOk(nodes, pending, i);
      if kind.Dir? && i == dp { assert Names(n, i) == Names(nodes, i) + {(ip, 1)}; }
      else { assert Names(n, i) == Names(nodes, i); }
    }
  }

  lemma CreatedCounts(nodes: Nodes, pending: multiset<nat>, dp: nat, j: nat, name: string, ip: nat, kind: Kind)
    requires DirsOk(nodes) && CountsOk(nodes, pending) && CanCreate(nodes, dp, j, name, ip) && LinkedDir(nodes[dp])
    requires kind.Dir? ==> nodes[dp].nlink < SHRT_MAX
    ensures CountsOk(Created(nodes, dp, j, name, ip, kind), pending)
  {
    hide Created, Names, NamedAt;
    var n := Created(nodes, dp, j, name, ip, kind);
    NotDots(nodes, dp, name);
    forall i | i in n ensures CountOk(n, pending, i) { CreatedCount(nodes, pending, dp, j, name, ip, kind, i); }
    forall i: nat, d: nat, y: nat | NamedAt(n, i, d, y) && i != 0 ensures i in n {
      CreatedAt(nodes, dp, j, name, ip, kind, i, d, y);
      CreatedSame(nodes, dp, j, name, ip, kind, i);
    }
    forall i | i in pending ensures i in n && !n[i].kind.Dir? { CreatedSame(nodes, dp, j, name, ip, kind, i); }
  }

  lemma CreatedChild(nodes: Nodes, dp: nat, j: nat, name: string, ip: nat, kind: Kind, d: nat, x: nat, y: nat)
    requires dp in nodes && ip !in nodes && ip != 0 && 2 <= j && FreeSlot(nodes[dp].entries, j) && LinkedDir(nodes[dp])
    requires d != 0
    requires kind.Dir? ==> nodes[dp].nlink < SHRT_MAX
    ensures ChildAt(Created(nodes, dp, j, name, ip, kind), d, x, y) <==>
            ChildAt(nodes, d, x, y) || (d == ip && x == dp && y == j)
  {
  }

  /** Only inodes that exist have names. */
  lemma ChildExists(nodes: Nodes, pending: multiset<nat>, i: nat, p: nat, j: nat)
    requires DirsOk(nodes) && CountsOk(nodes, pending) && ChildAt(nodes, i, p, j) && i != 0
    ensures i in nodes
  {
    assert DirOk(nodes[p], p);
    assert NamedAt(nodes, i, p, j);
  }

  lemma CreatedParent(nodes: Nodes, depth: map<nat, nat>, dp: nat, j: nat, name: string, ip: nat, kind: Kind, d: nat)
    requires DirsOk(nodes) && TreeOk(nodes, depth) && CanCreate(nodes, dp, j, name, ip) && LinkedDir(nodes[dp])
    requires dp in depth
    requires kind.Dir? ==> nodes[dp].nlink < SHRT_MAX
    requires d in nodes && LinkedDir(nodes[d]) && d != ROOTINO
    ensures d in Created(nodes, dp, j, name, ip, kind)
    ensures HasParent(Created(nodes, dp, j, name, ip, kind), depth[ip := depth[dp] + 1], d)
  {
    hide Created, ChildAt, Up;
    var n := Created(nodes, dp, j, name, ip, kind);
    FreePastDots(nodes, dp, j);
    assert HasParent(nodes, depth, d);
    var p := Up(nodes[d]);
    var k: nat :| ChildAt(nodes, d, p, k);
    CreatedChild(nodes, dp, j, name, ip, kind, d, p, k);
    CreatedSame(nodes, dp, j, name, ip, kind, d);
    CreatedSame(nodes, dp, j, name, ip, kind, p);
    assert ChildAt(n, d, p, k);
  }

  lemma CreatedChildOk(nodes: Nodes, depth: map<nat, nat>, pending: multiset<nat>, dp: nat, j: nat, name: string,
                       ip: nat,
                       kind: Kind, d: nat, p: nat, y: nat)
    requires NsOk(nodes, depth, pending) && CanCreate(nodes, dp, j, name, ip) && LinkedDir(nodes[dp])
    requires kind.Dir? ==> nodes[dp].nlink < SHRT_MAX
    requires var n := Created(nodes, dp, j, name, ip, kind); ChildAt(n, d, p, y) && d in n && n[d].kind.Dir?
    ensures ChildOk(Created(nodes, dp, j, name, ip, kind), d, p, y)
  {
    hide Created, ChildAt, Up, CountsOk;
    Clauses(nodes, depth, pending);
    var n := Created(nodes, dp, j, name, ip, kind);
    FreePastDots(nodes, dp, j);
    CreatedSame(nodes, dp, j, name, ip, kind, d);
    CreatedChild(nodes, dp, j, name, ip, kind, d, p, y);
    if d == ip {
      if ChildAt(nodes, d, p, y) {
        ChildExists(nodes, pending, d, p, y);
      }
      forall k: nat | ChildAt(n, d, p, k) ensures k == y {
        CreatedChild(nodes, dp, j, name, ip, kind, d, p, k);
        if ChildAt(nodes, d, p, k) { ChildExists(nodes, pending, d, p, k); }
      }
      NewUp(kind, ip, dp);
    } else {
      assert ChildOk(nodes, d, p, y);
      forall k: nat | ChildAt(n, d, p, k) ensures k == y { CreatedChild(nodes, dp, j, name, ip, kind, d, p, k); }
    }
  }

  lemma NewUp(kind: Kind, ip: nat, dp: nat)
    ensures kind.Dir? ==> Up(NewNode(kind, ip, dp)) == dp
  {
  }

  lemma CreatedTree(nodes: Nodes, depth: map<nat, nat>, pending: multiset<nat>, dp: nat, j: nat, name: string, ip: nat,
                    kind: Kind)
    requires NsOk(nodes, depth, pending) && CanCreate(nodes, dp, j, name, ip) && LinkedDir(nodes[dp]) && dp in depth
    requires kind.Dir? ==> nodes[dp].nlink < SHRT_MAX
    ensures TreeOk(Created(nodes, dp, j, name, ip, kind), depth[ip := depth[dp] + 1])
  {
    hide Created, ChildAt, Up, CountsOk, HasParent, ChildOk;
    Clauses(nodes, depth, pending);
    var n := Created(nodes, dp, j, name, ip, kind);
    var deeper := depth[ip := depth[dp] + 1];
    FreePastDots(nodes, dp, j);
    CreatedSame(nodes, dp, j, name, ip, kind, ROOTINO);
    forall d | d in n && LinkedDir(n[d]) && d != ROOTINO ensures HasParent(n, deeper, d) {
      CreatedSame(nodes, dp, j, name, ip, kind, d);
      if d == ip {
        NewParent(nodes, depth, dp, j, name, ip, kind);
      } else {
        CreatedParent(nodes, depth, dp, j, name, ip, kind, d);
      }
    }
    forall d: nat, p: nat, y: nat | ChildAt(n, d, p, y) && d in n && n[d].kind.Dir? ensures ChildOk(n, d, p, y) {
      CreatedChildOk(nodes, depth, pending, dp, j, name, ip, kind, d, p, y);
    }
  }

  lemma NewParent(nodes: Nodes, depth: map<nat, nat>, dp: nat, j: nat, name: string, ip: nat, kind: Kind)
    requires DirsOk(nodes) && CanCreate(nodes, dp, j, name, ip) && LinkedDir(nodes[dp]) && dp in depth
    requires kind.Dir? && nodes[dp].nlink < SHRT_MAX
    ensures ip in Created(nodes, dp, j, name, ip, kind)
    ensures HasParent(Created(nodes, dp, j, name, ip, kind), depth[ip := depth[dp] + 1], ip)
  {
    FreePastDots(nodes, dp, j);
    CreatedChild(nodes, dp, j, name, ip, kind, ip, dp, j);
    CreatedSame(nodes, dp, j, name, ip, kind, dp);
    assert ChildAt(Created(nodes, dp, j, name, ip, kind), ip, dp, j);
  }

  lemma DepthOf(nodes: Nodes, depth: map<nat, nat>, d: nat)
    requires TreeOk(nodes, depth) && d in nodes && LinkedDir(nodes[d])
    ensures d in depth
  {
  }

  lemma CreateKeeps(nodes: Nodes, depth: map<nat, nat>, pending: multiset<nat>, dp: nat, j: nat, name: string, ip: nat,
                    kind: Kind)
    requires NsOk(nodes, depth, pending) && CanCreate(nodes, dp, j, name, ip) && LinkedDir(nodes[dp])
    requires kind.Dir? ==> nodes[dp].nlink < SHRT_MAX
    ensures dp in depth
    ensures NsOk(Created(nodes, dp, j, name, ip, kind), depth[ip := depth[dp] + 1], pending)
  {
    hide DirsOk, CountsOk, Created, TreeOk;
    Clauses(nodes, depth, pending);
    DepthOf(nodes, depth, dp);
    Clauses(Created(nodes, dp, j, name, ip, kind), depth[ip := depth[dp] + 1], pending);
    CreatedDirs(nodes, dp, j, name, ip, kind);
    CreatedCounts(nodes, pending, dp, j, name, ip, kind);
    CreatedTree(nodes, depth, pending, dp, j, name, ip, kind);
  }

  lemma LostFileAt(nodes: Nodes, dp: nat, j: nat, name: string, ip: nat, kind: Kind, x: nat, y: nat)
    requires CanCreate(nodes, dp, j, name, ip) && !LinkedDir(nodes[dp]) && !kind.Dir?
    ensures NamedAt(Created(nodes, dp, j, name, ip, kind), ip, x, y) ==> NamedAt(nodes, ip, x, y)
  {
  }

  lemma LostFileCount(nodes: Nodes, pending: multiset<nat>, dp: nat, j: nat, name: string, ip: nat, kind: Kind)
    requires CanCreate(nodes, dp, j, name, ip) && !LinkedDir(nodes[dp]) && !kind.Dir? && ip !in pending
    requires Names(nodes, ip) == {}
    ensures ip in Created(nodes, dp, j, name, ip, kind) && !CountOk(Created(nodes, dp, j, name, ip, kind), pending, ip)
  {
    var n := Created(nodes, dp, j, name, ip, kind);
    forall x: nat, y: nat ensures !NamedAt(n, ip, x, y) {
      LostFileAt(nodes, dp, j, name, ip, kind, x, y);
      assert NamedAt(nodes, ip, x, y) ==> (x, y) in Names(nodes, ip);
    }
    assert Names(n, ip) == {};
  }

  /** A file created in a directory that has been removed is named by no linked directory. */
  lemma LostFile(nodes: Nodes, pending: multiset<nat>, dp: nat, j: nat, name: string, ip: nat, kind: Kind)
    requires CountsOk(nodes, pending) && CanCreate(nodes, dp, j, name, ip) && !LinkedDir(nodes[dp]) && !kind.Dir?
    ensures !CountsOk(Created(nodes, dp, j, name, ip, kind), pending)
  {
    hide CountOk, Created, NamedAt;
    NoNames(nodes, pending, ip);
    LostFileCount(nodes, pending, dp, j, name, ip, kind);
  }

  lemma NotAChild(nodes: Nodes, depth: map<nat, nat>, d: nat, p: nat, k: nat)
    requires TreeOk(nodes, depth) && d in nodes && nodes[d].kind.Dir? && !LinkedDir(nodes[d])
    ensures !ChildAt(nodes, d, p, k)
  {
  }

  lemma LostChildAt(nodes: Nodes, dp: nat, j: nat, name: string, ip: nat, p: nat, k: nat)
    requires CanCreate(nodes, dp, j, name, ip) && DirOk(nodes[dp], dp) && nodes[dp].nlink <= 0 && dp != 0
    ensures ChildAt(Created(nodes, dp, j, name, ip, Dir), dp, p, k) ==> ChildAt(nodes, dp, p, k)
  {
  }

  /** Making a directory in a removed directory gives the removed one a link, and no parent. */
  lemma LostParent(nodes: Nodes, depth: map<nat, nat>, pending: multiset<nat>, dp: nat, j: nat, name: string, ip: nat,
                   deeper: map<nat, nat>)
    requires NsOk(nodes, depth, pending) && CanCreate(nodes, dp, j, name, ip) && !LinkedDir(nodes[dp])
    ensures !TreeOk(Created(nodes, dp, j, name, ip, Dir), deeper)
  {
    hide CountsOk, ChildAt, DotsFirst, UniqueNames, Bare;
    Clauses(nodes, depth, pending);
    var n := Created(nodes, dp, j, name, ip, Dir);
    CountAt(nodes, pending, dp);
    assert DirOk(nodes[dp], dp);
    forall p: nat, k: nat ensures !ChildAt(n, dp, p, k) {
      LostChildAt(nodes, dp, j, name, ip, p, k);
      NotAChild(nodes, depth, dp, p, k);
    }
    assert !HasParent(n, deeper, dp);
    assert LinkedDir(n[dp]) && dp != ROOTINO;
  }

  /** A link count that wraps is negative. */
  lemma WrapsLinks(nodes: Nodes, pending: multiset<nat>, dp: nat, j: nat, name: string, ip: nat)
    requires CanCreate(nodes, dp, j, name, ip) && nodes[dp].nlink >= SHRT_MAX && CountsOk(nodes, pending)
    ensures !CountsOk(Created(nodes, dp, j, name, ip, Dir), pending)
  {
  }

  /** create leaves link counts and tree in order exactly when the directory it adds to is still linked, and for a
      new directory has room for one more link. */
  lemma CreateExactly(nodes: Nodes, depth: map<nat, nat>, pending: multiset<nat>, dp: nat, j: nat, name: string,
                      ip: nat, kind: Kind)
    requires NsOk(nodes, depth, pending) && CanCreate(nodes, dp, j, name, ip)
    ensures (exists deeper :: NsOk(Created(nodes, dp, j, name, ip, kind), deeper, pending)) <==>
            LinkedDir(nodes[dp]) && (kind.Dir? ==> nodes[dp].nlink < SHRT_MAX)
  {
    hide DirsOk, CountsOk, Created, TreeOk;
    Clauses(nodes, depth, pending);
    if LinkedDir(nodes[dp]) && (kind.Dir? ==> nodes[dp].nlink < SHRT_MAX) {
      CreateKeeps(nodes, depth, pending, dp, j, name, ip, kind);
    } else {
      forall deeper { Clauses(Created(nodes, dp, j, name, ip, kind), deeper, pending); }
      if !LinkedDir(nodes[dp]) && !kind.Dir? {
        LostFile(nodes, pending, dp, j, name, ip, kind);
      } else if !LinkedDir(nodes[dp]) {
        forall deeper { LostParent(nodes, depth, pending, dp, j, name, ip, deeper); }
      } else {
        WrapsLinks(nodes, pending, dp, j, name, ip);
      }
    }
  }

  // ----- link -----

  lemma SameNameAt(nodes: Nodes, i: nat, n: int, a: nat, x: nat, y: nat)
    requires i in nodes && !nodes[i].kind.Dir?
    ensures NamedAt(Links(nodes, i, n), a, x, y) <==> NamedAt(nodes, a, x, y)
  {
  }

  lemma SameNames(nodes: Nodes, i: nat, n: int, a: nat)
    requires i in nodes && !nodes[i].kind.Dir?
    ensures Names(Links(nodes, i, n), a) == Names(nodes, a)
  {
  }

  /** Changing the count of a file leaves directories and tree. */
  lemma FileLinksDirs(nodes: Nodes, depth: map<nat, nat>, i: nat, n: int)
    requires DirsOk(nodes) && TreeOk(nodes, depth) && i in nodes && !nodes[i].kind.Dir?
    ensures DirsOk(Links(nodes, i, n)) && TreeOk(Links(nodes, i, n), depth)
  {
    var m := Links(nodes, i, n);
    forall d | d in m ensures DirOk(m[d], d) { assert DirOk(nodes[d], d); }
    forall d: nat, p: nat, j: nat ensures ChildAt(m, d, p, j) <==> ChildAt(nodes, d, p, j) { }
    forall d | d in m && LinkedDir(m[d]) && d != ROOTINO ensures HasParent(m, depth, d) {
      assert HasParent(nodes, depth, d);
      var j: nat :| ChildAt(nodes, d, Up(nodes[d]), j);
      assert ChildAt(m, d, Up(m[d]), j);
    }
    forall d: nat, p: nat, j: nat | ChildAt(m, d, p, j) && d in m && m[d].kind.Dir? ensures ChildOk(m, d, p, j) {
      assert ChildOk(nodes, d, p, j);
    }
  }

  lemma FileLinksCounts(nodes: Nodes, pending: multiset<nat>, i: nat, n: int, more: multiset<nat>)
    requires CountsOk(nodes, pending) && i in nodes && !nodes[i].kind.Dir? && n <= SHRT_MAX
    requires n + pending[i] == nodes[i].nlink + more[i] && forall a: nat :: a != i ==> more[a] == pending[a]
    ensures CountsOk(Links(nodes, i, n), more)
  {
    hide Names, NamedAt;
    var m := Links(nodes, i, n);
    forall a | a in m ensures CountOk(m, more, a) {
      CountAt(nodes, pending, a);
      SameNames(nodes, i, n, a);
    }
    forall a: nat, d: nat, j: nat | NamedAt(m, a, d, j) && a != 0 ensures a in m { SameNameAt(nodes, i, n, a, d, j); }
    forall a | a in more ensures a in m && !m[a].kind.Dir? {
      if a != i { assert a in pending; }
    }
  }

  /** The first half of link keeps everything in order exactly when the count does not wrap. */
  lemma LinkBeginExactly(nodes: Nodes, depth: map<nat, nat>, pending: multiset<nat>, i: nat)
    requires NsOk(nodes, depth, pending) && i in nodes && !nodes[i].kind.Dir?
    ensures NsOk(Links(nodes, i, Bump(nodes[i].nlink)), depth, pending + multiset{i}) <==> nodes[i].nlink < SHRT_MAX
  {
    hide TreeOk, DirsOk, NamedAt, Names;
    Clauses(nodes, depth, pending);
    Clauses(Links(nodes, i, Bump(nodes[i].nlink)), depth, pending + multiset{i});
    FileLinksDirs(nodes, depth, i, Bump(nodes[i].nlink));
    assert CountOk(nodes, pending, i);
    if nodes[i].nlink < SHRT_MAX {
      FileLinksCounts(nodes, pending, i, nodes[i].nlink + 1, pending + multiset{i});
    } else {
      assert !CountOk(Links(nodes, i, Bump(nodes[i].nlink)), pending + multiset{i}, i);
    }
  }

  /** The failure path of link takes the count back. */
  lemma LinkUndo(nodes: Nodes, depth: map<nat, nat>, pending: multiset<nat>, i: nat)
    requires NsOk(nodes, depth, pending) && i in pending && i in nodes
    ensures NsOk(Links(nodes, i, Drop(nodes[i].nlink)), depth, pending - multiset{i})
  {
    hide TreeOk, DirsOk, NamedAt, Names;
    Clauses(nodes, depth, pending);
    Clauses(Links(nodes, i, Drop(nodes[i].nlink)), depth, pending - multiset{i});
    FileLinksDirs(nodes, depth, i, Drop(nodes[i].nlink));
    assert CountOk(nodes, pending, i);
    FileLinksCounts(nodes, pending, i, nodes[i].nlink - 1, pending - multiset{i});
  }

  lemma PutAt(nodes: Nodes, dp: nat, j: nat, e: Dirent, i: nat, x: nat, y: nat)
    requires dp in nodes && LinkedDir(nodes[dp]) && FreeSlot(nodes[dp].entries, j) && e.inum != 0 && e.name != "."
    requires i != 0
    ensures NamedAt(Put(nodes, dp, j, e), i, x, y) <==> NamedAt(nodes, i, x, y) || (i == e.inum && x == dp && y == j)
  {
  }

  lemma PutNames(nodes: Nodes, dp: nat, j: nat, e: Dirent, i: nat)
    requires dp in nodes && LinkedDir(nodes[dp]) && FreeSlot(nodes[dp].entries, j) && e.inum != 0 && e.name != "."
    requires i != 0
    ensures Names(Put(nodes, dp, j, e), i) == Names(nodes, i) + if i == e.inum then {(dp, j)} else {}
    ensures (dp, j) !in Names(nodes, i)
  {
  }

  /** When the second half of link adds a name for file i. */
  ghost predicate CanLink(nodes: Nodes, pending: multiset<nat>, dp: nat, j: nat, name: string, i: nat) {
    && dp in nodes && nodes[dp].kind.Dir? && FreeSlot(nodes[dp].entries, j) && Absent(nodes[dp].entries, name)
    && i in pending
  }

  lemma LinkedCount(nodes: Nodes, pending: multiset<nat>, dp: nat, j: nat, name: string, i: nat, a: nat)
    requires DirsOk(nodes) && CountsOk(nodes, pending) && CanLink(nodes, pending, dp, j, name, i)
    requires LinkedDir(nodes[dp]) && a in nodes
    ensures CountOk(Put(nodes, dp, j, Dirent(i, name)), pending - multiset{i}, a)
  {
    hide Names, NamedAt;
    NotDots(nodes, dp, name);
    PutNames(nodes, dp, j, Dirent(i, name), a);
    assert CountOk(nodes, pending, a);
    if a != i { assert Names(Put(nodes, dp, j, Dirent(i, name)), a) == Names(nodes, a); }
  }

  lemma LinkedCounts(nodes: Nodes, pending: multiset<nat>, dp: nat, j: nat, name: string, i: nat)
    requires DirsOk(nodes) && CountsOk(nodes, pending) && CanLink(nodes, pending, dp, j, name, i)
    requires LinkedDir(nodes[dp])
    ensures CountsOk(Put(nodes, dp, j, Dirent(i, name)), pending - multiset{i})
  {
    hide Names, NamedAt, Absent, DirOk, CountOk;
    var n := Put(nodes, dp, j, Dirent(i, name));
    NotDots(nodes, dp, name);
    forall a | a in n ensures CountOk(n, pending - multiset{i}, a) { LinkedCount(nodes, pending, dp, j, name, i, a); }
    forall a: nat, d: nat, y: nat | NamedAt(n, a, d, y) && a != 0 ensures a in n { PutAt(nodes, dp, j, Dirent(i, name), a, d, y); }
    forall a | a in pending - multiset{i} ensures a in n && !n[a].kind.Dir? { assert a in pending; }
  }

  lemma LinkedDirs(nodes: Nodes, pending: multiset<nat>, dp: nat, j: nat, name: string, i: nat)
    requires DirsOk(nodes) && CanLink(nodes, pending, dp, j, name, i) && LinkedDir(nodes[dp])
    ensures DirsOk(Put(nodes, dp, j, Dirent(i, name)))
  {
    var n := Put(nodes, dp, j, Dirent(i, name));
    assert DirOk(nodes[dp], dp);
    AddedDirOk(nodes[dp], dp, j, Dirent(i, name));
    forall d | d in n ensures DirOk(n[d], d) {
      if d != dp { assert n[d] == nodes[d]; }
    }
  }

  /** An entry past the dots leaves kinds, counts and parents. */
  lemma PutSame(nodes: Nodes, dp: nat, j: nat, e: Dirent, d: nat)
    requires dp in nodes && 2 <= j <= |nodes[dp].entries| && d in nodes
    ensures var n := Put(nodes, dp, j, e);
            && n.Keys == nodes.Keys && n[d].kind == nodes[d].kind && n[d].nlink == nodes[d].nlink && Up(n[d]) == Up(nodes[d])
  {
  }

  lemma PutChild(nodes: Nodes, dp: nat, j: nat, e: Dirent, d: nat, p: nat, y: nat)
    requires dp in nodes && LinkedDir(nodes[dp]) && 2 <= j && FreeSlot(nodes[dp].entries, j) && d != 0
    ensures ChildAt(Put(nodes, dp, j, e), d, p, y) <==> ChildAt(nodes, d, p, y) || (d == e.inum && p == dp && y == j)
  {
  }

  /** A new name for a file is not part of the tree. */
  lemma LinkedTree(nodes: Nodes, depth: map<nat, nat>, dp: nat, j: nat, e: Dirent)
    requires DirsOk(nodes) && TreeOk(nodes, depth) && dp in nodes && LinkedDir(nodes[dp])
    requires FreeSlot(nodes[dp].entries, j)
    requires e.inum in nodes && !nodes[e.inum].kind.Dir?
    ensures TreeOk(Put(nodes, dp, j, e), depth)
  {
    hide Put, Up, ChildAt;
    var n := Put(nodes, dp, j, e);
    FreePastDots(nodes, dp, j);
    PutSame(nodes, dp, j, e, ROOTINO);
    forall d | d in n && LinkedDir(n[d]) && d != ROOTINO ensures HasParent(n, depth, d) {
      PutSame(nodes, dp, j, e, d);
      assert HasParent(nodes, depth, d);
      var p := Up(nodes[d]);
      var k: nat :| ChildAt(nodes, d, p, k);
      PutSame(nodes, dp, j, e, p);
      PutChild(nodes, dp, j, e, d, p, k);
      assert ChildAt(n, d, p, k);
    }
    forall d: nat, p: nat, y: nat | ChildAt(n, d, p, y) && d in n && n[d].kind.Dir? ensures ChildOk(n, d, p, y) {
      PutSame(nodes, dp, j, e, d);
      PutChild(nodes, dp, j, e, d, p, y);
      assert ChildOk(nodes, d, p, y);
      forall k: nat | ChildAt(n, d, p, k) ensures k == y { PutChild(nodes, dp, j, e, d, p, k); }
    }
  }

  lemma LostLinkNames(nodes: Nodes, dp: nat, j: nat, e: Dirent, i: nat)
    requires dp in nodes && j <= |nodes[dp].entries| && !LinkedDir(nodes[dp])
    ensures Names(Put(nodes, dp, j, e), i) == Names(nodes, i)
  {
  }

  /** The link is lost when it is made in a removed directory. */
  lemma LostLink(nodes: Nodes, pending: multiset<nat>, dp: nat, j: nat, name: string, i: nat)
    requires CountsOk(nodes, pending) && CanLink(nodes, pending, dp, j, name, i) && !LinkedDir(nodes[dp])
    ensures !CountsOk(Put(nodes, dp, j, Dirent(i, name)), pending - multiset{i})
  {
    hide Names, NamedAt;
    LostLinkNames(nodes, dp, j, Dirent(i, name), i);
    CountAt(nodes, pending, i);
    assert !CountOk(Put(nodes, dp, j, Dirent(i, name)), pending - multiset{i}, i);
  }

  /** The second half of link leaves everything in order exactly when the new name goes into a linked directory. */
  lemma LinkEndExactly(nodes: Nodes, depth: map<nat, nat>, pending: multiset<nat>, dp: nat, j: nat, name: string,
                       i: nat)
    requires NsOk(nodes, depth, pending) && CanLink(nodes, pending, dp, j, name, i)
    ensures NsOk(Put(nodes, dp, j, Dirent(i, name)), depth, pending - multiset{i}) <==> LinkedDir(nodes[dp])
  {
    hide DirOk, Put, TreeOk, CountOk, NamedAt;
    Clauses(nodes, depth, pending);
    Clauses(Put(nodes, dp, j, Dirent(i, name)), depth, pending - multiset{i});
    if LinkedDir(nodes[dp]) {
      LinkedDirs(nodes, pending, dp, j, name, i);
      LinkedCounts(nodes, pending, dp, j, name, i);
      LinkedTree(nodes, depth, dp, j, Dirent(i, name));
    } else {
      LostLink(nodes, pending, dp, j, name, i);
    }
  }

  // ----- unlink -----

  /** What unlink has looked up and checked: slot j of dp names i by a name other than "." and "..", and i is not a
      directory that holds entries. */
  ghost predicate CanUnlink(nodes: Nodes, dp: nat, j: nat, i: nat) {
    && dp in nodes && nodes[dp].kind.Dir? && j < |nodes[dp].entries| && nodes[dp].entries[j].inum == i != 0
    && nodes[dp].entries[j].name != "." && nodes[dp].entries[j].name != ".."
    && (i in nodes && nodes[i].kind.Dir? ==> Bare(nodes[i].entries))
  }

  lemma NameCounts(nodes: Nodes, pending: multiset<nat>, i: nat, d: nat, j: nat)
    requires CountsOk(nodes, pending) && NamedAt(nodes, i, d, j) && i != 0
    ensures i in nodes && (d, j) in Names(nodes, i) && nodes[i].nlink == |Names(nodes, i)| + pending[i] >= 1
  {
  }

  /** Entries are only found in linked directories, and what they name exists and has a link: no panic. */
  lemma UnlinkFinds(nodes: Nodes, depth: map<nat, nat>, pending: multiset<nat>, dp: nat, j: nat, i: nat)
    requires NsOk(nodes, depth, pending) && CanUnlink(nodes, dp, j, i)
    ensures LinkedDir(nodes[dp]) && 2 <= j && ChildAt(nodes, i, dp, j) && NamedAt(nodes, i, dp, j)
    ensures i in nodes && nodes[i].nlink >= 1 && (dp, j) in Names(nodes, i)
  {
    hide CountsOk, TreeOk, Names;
    Clauses(nodes, depth, pending);
    assert DirOk(nodes[dp], dp);
    NameCounts(nodes, pending, i, dp, j);
  }

  /** ".." of a linked directory does not lead to an empty one. */
  lemma NoSubdirs(nodes: Nodes, depth: map<nat, nat>, i: nat, x: nat)
    requires TreeOk(nodes, depth) && i in nodes && Bare(nodes[i].entries) && x in nodes && LinkedDir(nodes[x]) && x != 0
    ensures x != ROOTINO ==> Up(nodes[x]) != i
  {
  }

  /** A name of an empty directory is the one in its parent. */
  lemma OneName(nodes: Nodes, depth: map<nat, nat>, dp: nat, j: nat, i: nat, x: nat, y: nat)
    requires DirsOk(nodes) && TreeOk(nodes, depth) && ChildAt(nodes, i, dp, j) && i in nodes && nodes[i].kind.Dir?
    requires Bare(nodes[i].entries)
    requires NamedAt(nodes, i, x, y)
    ensures x == dp && y == j
  {
    NoSubdirs(nodes, depth, i, x);
    assert DirOk(nodes[x], x);
    assert ChildOk(nodes, i, dp, j);
    if y >= 2 {
      assert ChildAt(nodes, i, x, y);
      assert ChildOk(nodes, i, x, y);
    }
  }

  lemma EmptyDirLinks(nodes: Nodes, depth: map<nat, nat>, pending: multiset<nat>, dp: nat, j: nat, i: nat)
    requires NsOk(nodes, depth, pending) && CanUnlink(nodes, dp, j, i) && i in nodes && nodes[i].kind.Dir?
    ensures nodes[i].nlink == 1 && Names(nodes, i) == {(dp, j)} && pending[i] == 0
  {
    hide CountsOk, DirsOk, TreeOk;
    Clauses(nodes, depth, pending);
    UnlinkFinds(nodes, depth, pending, dp, j, i);
    NameCounts(nodes, pending, i, dp, j);
    forall x: nat, y: nat | NamedAt(nodes, i, x, y) ensures x == dp && y == j { OneName(nodes, depth, dp, j, i, x, y); }
    assert Names(nodes, i) == {(dp, j)};
    NotPending(nodes, pending, i);
  }

  lemma NotPending(nodes: Nodes, pending: multiset<nat>, i: nat)
    requires CountsOk(nodes, pending) && i in nodes && nodes[i].kind.Dir?
    ensures pending[i] == 0
  {
  }

  /** A linked directory is named by something other than its children. */
  lemma NamedByParent(nodes: Nodes, depth: map<nat, nat>, d: nat) returns (x: nat, y: nat)
    requires DirsOk(nodes) && TreeOk(nodes, depth) && d in nodes && LinkedDir(nodes[d])
    ensures NamedAt(nodes, d, x, y) && (d == ROOTINO ==> x == d)
    ensures (d != ROOTINO ==> x == Up(nodes[d]) && x in depth && d in depth && depth[x] < depth[d])
  {
    if d == ROOTINO {
      x, y := d, 1;
      assert DirOk(nodes[d], d);
    } else {
      assert HasParent(nodes, depth, d);
      x := Up(nodes[d]);
      y :| ChildAt(nodes, d, x, y);
      assert DirOk(nodes[x], x) && DirOk(nodes[d], d);
    }
  }

  lemma ParentStays(nodes: Nodes, depth: map<nat, nat>, pending: multiset<nat>, dp: nat, j: nat, i: nat)
    requires NsOk(nodes, depth, pending) && CanUnlink(nodes, dp, j, i) && i in nodes && nodes[i].kind.Dir?
    ensures i != dp && i != ROOTINO && LinkedDir(nodes[i]) && Up(nodes[i]) == dp && nodes[dp].nlink >= 2
    ensures (i, 1) in Names(nodes, dp)
  {
    hide CountsOk, Names;
    Clauses(nodes, depth, pending);
    UnlinkFinds(nodes, depth, pending, dp, j, i);
    assert ChildOk(nodes, i, dp, j);
    assert HasParent(nodes, depth, i);
    assert DirOk(nodes[i], i);
    NameCounts(nodes, pending, dp, i, 1);
    var x, y := NamedByParent(nodes, depth, dp);
    NameCounts(nodes, pending, dp, x, y);
    SubsetSize({(i, 1), (x, y)}, Names(nodes, dp));
  }

  /** What unlink leaves of each inode. */
  lemma UnlinkedSame(nodes: Nodes, depth: map<nat, nat>, pending: multiset<nat>, dp: nat, j: nat, i: nat, d: nat)
    requires NsOk(nodes, depth, pending) && CanUnlink(nodes, dp, j, i) && i in nodes && d in nodes
    ensures var n := Unlinked(nodes, dp, j, i);
            && n.Keys == nodes.Keys && n[d].kind == nodes[d].kind && Up(n[d]) == Up(nodes[d])
            && n[d].nlink == nodes[d].nlink - (if d == i || (d == dp && nodes[i].kind.Dir?) then 1 else 0)
            && (LinkedDir(n[d]) <==> LinkedDir(nodes[d]) && d != i)
            && n[d].entries == if d == dp then SetAt(nodes[d].entries, j, Dirent(0, "")) else nodes[d].entries
  {
    hide CountsOk, DirsOk, TreeOk;
    Clauses(nodes, depth, pending);
    UnlinkFinds(nodes, depth, pending, dp, j, i);
    if nodes[i].kind.Dir? {
      ParentStays(nodes, depth, pending, dp, j, i);
      EmptyDirLinks(nodes, depth, pending, dp, j, i);
    }
  }

  lemma UnlinkedAt(nodes: Nodes, depth: map<nat, nat>, pending: multiset<nat>, dp: nat, j: nat, i: nat, a: nat, x: nat,
                   y: nat)
    requires NsOk(nodes, depth, pending) && CanUnlink(nodes, dp, j, i) && i in nodes && a != 0
    ensures NamedAt(Unlinked(nodes, dp, j, i), a, x, y) <==> NamedAt(nodes, a, x, y) && !(x == dp && y == j) && x != i
  {
    hide CountsOk, TreeOk, Unlinked;
    Clauses(nodes, depth, pending);
    if x in nodes {
      UnlinkedSame(nodes, depth, pending, dp, j, i, x);
    } else {
      UnlinkedSame(nodes, depth, pending, dp, j, i, i);
    }
  }

  /** What an empty directory names is its parent. */
  lemma EmptyNames(nodes: Nodes, depth: map<nat, nat>, pending: multiset<nat>, dp: nat, j: nat, i: nat, a: nat, y: nat)
    requires NsOk(nodes, depth, pending) && CanUnlink(nodes, dp, j, i) && i in nodes && a != 0
    ensures NamedAt(nodes, a, i, y) <==> nodes[i].kind.Dir? && a == dp && y == 1
  {
    hide CountsOk, TreeOk;
    Clauses(nodes, depth, pending);
    assert DirOk(nodes[i], i);
    if nodes[i].kind.Dir? { ParentStays(nodes, depth, pending, dp, j, i); }
  }

  lemma UnlinkedNames(nodes: Nodes, depth: map<nat, nat>, pending: multiset<nat>, dp: nat, j: nat, i: nat, a: nat)
    requires NsOk(nodes, depth, pending) && CanUnlink(nodes, dp, j, i) && i in nodes && a != 0
    ensures Names(Unlinked(nodes, dp, j, i), a) ==
            Names(nodes, a) - (if a == i then {(dp, j)} else {}) - if nodes[i].kind.Dir? && a == dp then {(i, 1)} else {}
  {
    hide NsOk, Unlinked;
    var n := Unlinked(nodes, dp, j, i);
    forall x: nat, y: nat
      ensures NamedAt(n, a, x, y) <==> NamedAt(nodes, a, x, y) && !(a == i && x == dp && y == j)
                                       && !(nodes[i].kind.Dir? && a == dp && x == i && y == 1)
    {
      UnlinkedAt(nodes, depth, pending, dp, j, i, a, x, y);
      EmptyNames(nodes, depth, pending, dp, j, i, a, y);
    }
  }

  lemma CountAt(nodes: Nodes, pending: multiset<nat>, a: nat)
    requires CountsOk(nodes, pending) && a in nodes
    ensures nodes[a].nlink == |Names(nodes, a)| + pending[a] <= SHRT_MAX
  {
  }

  lemma UnlinkedCount(nodes: Nodes, depth: map<nat, nat>, pending: multiset<nat>, dp: nat, j: nat, i: nat, a: nat)
    requires NsOk(nodes, depth, pending) && CanUnlink(nodes, dp, j, i) && i in nodes && a in nodes
    ensures a in Unlinked(nodes, dp, j, i) && CountOk(Unlinked(nodes, dp, j, i), pending, a)
  {
    hide NsOk, Names, Unlinked, NamedAt, ChildAt, SetAt, LinkedDir, Up;
    OrderCounts(nodes, depth, pending);
    UnlinkFinds(nodes, depth, pending, dp, j, i);
    UnlinkedSame(nodes, depth, pending, dp, j, i, a);
    RootPositive(nodes, depth, pending, a);
    UnlinkedNames(nodes, depth, pending, dp, j, i, a);
    CountAt(nodes, pending, a);
    if nodes[i].kind.Dir? { ParentStays(nodes, depth, pending, dp, j, i); }
    if a == i {
      Lowered(Names(nodes, a), (dp, j));
    } else {
      Lowered(Names(nodes, a), (i, 1));
    }
  }

  lemma Lowered<T>(a: set<T>, x: T)
    ensures |a - {x}| == if x in a then |a| - 1 else |a|
    ensures a - {} == a && a - {x} - {} == a - {x} && a - {} - {x} == a - {x}
  {
  }

  lemma UnlinkedCounts(nodes: Nodes, depth: map<nat, nat>, pending: multiset<nat>, dp: nat, j: nat, i: nat)
    requires NsOk(nodes, depth, pending) && CanUnlink(nodes, dp, j, i) && i in nodes
    ensures CountsOk(Unlinked(nodes, dp, j, i), pending)
  {
    hide TreeOk, DirsOk, NamedAt, Names, Unlinked, CountOk;
    Clauses(nodes, depth, pending);
    var n := Unlinked(nodes, dp, j, i);
    UnlinkedSame(nodes, depth, pending, dp, j, i, i);
    forall a | a in n ensures CountOk(n, pending, a) { UnlinkedCount(nodes, depth, pending, dp, j, i, a); }
    forall a: nat, d: nat, y: nat | NamedAt(n, a, d, y) && a != 0 ensures a in n {
      UnlinkedAt(nodes, depth, pending, dp, j, i, a, d, y);
    }
    forall a | a in pending ensures a in n && !n[a].kind.Dir? { UnlinkedSame(nodes, depth, pending, dp, j, i, a); }
  }

  lemma ClearedDirOk(n: Node, d: nat, j: nat)
    requires n.kind.Dir? && DirOk(n, d) && 2 <= j < |n.entries|
    ensures UniqueNames(SetAt(n.entries, j, Dirent(0, ""))) && DotsFirst(SetAt(n.entries, j, Dirent(0, "")), d)
  {
  }

  lemma UnlinkedDirs(nodes: Nodes, depth: map<nat, nat>, pending: multiset<nat>, dp: nat, j: nat, i: nat)
    requires NsOk(nodes, depth, pending) && CanUnlink(nodes, dp, j, i) && i in nodes
    ensures DirsOk(Unlinked(nodes, dp, j, i))
  {
    hide TreeOk, CountsOk, Unlinked, SetAt, UniqueNames, DotsFirst;
    Clauses(nodes, depth, pending);
    var n := Unlinked(nodes, dp, j, i);
    UnlinkFinds(nodes, depth, pending, dp, j, i);
    UnlinkedSame(nodes, depth, pending, dp, j, i, i);
    forall d | d in n ensures DirOk(n[d], d) {
      assert DirOk(nodes[d], d);
      UnlinkedSame(nodes, depth, pending, dp, j, i, d);
      if d == dp { ClearedDirOk(nodes[d], d, j); }
      if nodes[i].kind.Dir? { ParentStays(nodes, depth, pending, dp, j, i); }
    }
  }

  lemma UnlinkedChild(nodes: Nodes, depth: map<nat, nat>, pending: multiset<nat>, dp: nat, j: nat, i: nat, d: nat,
                      p: nat, y: nat)
    requires NsOk(nodes, depth, pending) && CanUnlink(nodes, dp, j, i) && i in nodes && d != 0
    ensures ChildAt(Unlinked(nodes, dp, j, i), d, p, y) <==> ChildAt(nodes, d, p, y) && !(p == dp && y == j) && p != i
  {
    hide CountsOk, TreeOk, DirsOk, Unlinked;
    Clauses(nodes, depth, pending);
    if p in nodes {
      UnlinkedSame(nodes, depth, pending, dp, j, i, p);
    } else {
      UnlinkedSame(nodes, depth, pending, dp, j, i, i);
    }
  }

  lemma UnlinkedParent(nodes: Nodes, depth: map<nat, nat>, pending: multiset<nat>, dp: nat, j: nat, i: nat, d: nat)
    requires NsOk(nodes, depth, pending) && CanUnlink(nodes, dp, j, i) && i in nodes
    requires d in nodes && LinkedDir(nodes[d]) && d != i && d != ROOTINO
    ensures d in Unlinked(nodes, dp, j, i) && HasParent(Unlinked(nodes, dp, j, i), depth, d)
  {
    hide CountsOk, Unlinked, ChildOk, Up;
    Clauses(nodes, depth, pending);
    var n := Unlinked(nodes, dp, j, i);
    assert HasParent(nodes, depth, d);
    var p := Up(nodes[d]);
    var k: nat :| ChildAt(nodes, d, p, k);
    UnlinkedSame(nodes, depth, pending, dp, j, i, d);
    UnlinkedSame(nodes, depth, pending, dp, j, i, p);
    UnlinkedChild(nodes, depth, pending, dp, j, i, d, p, k);
    assert ChildAt(n, d, p, k);
  }

  lemma UnlinkedTree(nodes: Nodes, depth: map<nat, nat>, pending: multiset<nat>, dp: nat, j: nat, i: nat)
    requires NsOk(nodes, depth, pending) && CanUnlink(nodes, dp, j, i) && i in nodes
    ensures TreeOk(Unlinked(nodes, dp, j, i), depth)
  {
    hide CountsOk, Unlinked, Up, HasParent, ChildAt;
    Clauses(nodes, depth, pending);
    var n := Unlinked(nodes, dp, j, i);
    UnlinkedSame(nodes, depth, pending, dp, j, i, ROOTINO);
    if nodes[i].kind.Dir? { ParentStays(nodes, depth, pending, dp, j, i); }
    forall d | d in n && LinkedDir(n[d]) && d != ROOTINO ensures HasParent(n, depth, d) {
      UnlinkedSame(nodes, depth, pending, dp, j, i, d);
      UnlinkedParent(nodes, depth, pending, dp, j, i, d);
    }
    forall d: nat, p: nat, y: nat | ChildAt(n, d, p, y) && d in n && n[d].kind.Dir? ensures ChildOk(n, d, p, y) {
      UnlinkedChildOk(nodes, depth, pending, dp, j, i, d, p, y);
    }
  }

  /** A directory has one place in the tree. */
  lemma OnlyPlace(nodes: Nodes, depth: map<nat, nat>, d: nat, p: nat, y: nat, x: nat, k: nat)
    requires TreeOk(nodes, depth) && ChildAt(nodes, d, p, y) && d in nodes && nodes[d].kind.Dir?
    ensures ChildAt(nodes, d, x, k) ==> x == p && k == y
  {
  }

  lemma UnlinkedChildOk(nodes: Nodes, depth: map<nat, nat>, pending: multiset<nat>, dp: nat, j: nat, i: nat, d: nat,
                        p: nat, y: nat)
    requires NsOk(nodes, depth, pending) && CanUnlink(nodes, dp, j, i) && i in nodes
    requires var n := Unlinked(nodes, dp, j, i); ChildAt(n, d, p, y) && d in n && n[d].kind.Dir?
    ensures ChildOk(Unlinked(nodes, dp, j, i), d, p, y)
  {
    hide CountsOk, Unlinked, Up, HasParent, ChildAt;
    Clauses(nodes, depth, pending);
    var n := Unlinked(nodes, dp, j, i);
    UnlinkFinds(nodes, depth, pending, dp, j, i);
    UnlinkedSame(nodes, depth, pending, dp, j, i, i);
    UnlinkedSame(nodes, depth, pending, dp, j, i, d);
    UnlinkedChild(nodes, depth, pending, dp, j, i, d, p, y);
    OnlyPlace(nodes, depth, d, p, y, dp, j);
    assert ChildOk(nodes, d, p, y);
    forall k: nat | ChildAt(n, d, p, k) ensures k == y { UnlinkedChild(nodes, depth, pending, dp, j, i, d, p, k); }
  }

  lemma UnlinkKeeps(nodes: Nodes, depth: map<nat, nat>, pending: multiset<nat>, dp: nat, j: nat, i: nat)
    requires NsOk(nodes, depth, pending) && CanUnlink(nodes, dp, j, i)
    ensures i in nodes && nodes[i].nlink >= 1 && LinkedDir(nodes[dp])
    ensures NsOk(Unlinked(nodes, dp, j, i), depth, pending)
  {
    hide DirsOk, CountsOk, TreeOk, Unlinked;
    Clauses(nodes, depth, pending);
    UnlinkFinds(nodes, depth, pending, dp, j, i);
    Clauses(Unlinked(nodes, dp, j, i), depth, pending);
    UnlinkedDirs(nodes, depth, pending, dp, j, i);
    UnlinkedCounts(nodes, depth, pending, dp, j, i);
    UnlinkedTree(nodes, depth, pending, dp, j, i);
  }

  lemma NotOwnChild(nodes: Nodes, depth: map<nat, nat>, pending: multiset<nat>, dp: nat, j: nat, i: nat)
    requires NsOk(nodes, depth, pending) && CanUnlink(nodes, dp, j, i)
    ensures i != dp && nodes[dp].nlink >= 1
  {
    hide DirsOk, CountsOk, HasParent;
    Clauses(nodes, depth, pending);
    UnlinkFinds(nodes, depth, pending, dp, j, i);
    if i == dp {
      assert ChildOk(nodes, i, dp, j);
      assert HasParent(nodes, depth, dp);
      Nearer(nodes, depth, dp);
    }
  }

  lemma Nearer(nodes: Nodes, depth: map<nat, nat>, d: nat)
    requires d in nodes && HasParent(nodes, depth, d)
    ensures Up(nodes[d]) != d
  {
  }

  // ----- iput -----

  lemma ReleasedAt(nodes: Nodes, i: nat, a: nat, x: nat, y: nat)
    requires i in nodes && nodes[i].nlink == 0
    ensures NamedAt(nodes - {i}, a, x, y) <==> NamedAt(nodes, a, x, y)
  {
  }

  lemma ReleasedNames(nodes: Nodes, i: nat, a: nat)
    requires i in nodes && nodes[i].nlink == 0
    ensures Names(nodes - {i}, a) == Names(nodes, a)
  {
  }

  lemma ReleasedCounts(nodes: Nodes, pending: multiset<nat>, i: nat)
    requires DirsOk(nodes) && CountsOk(nodes, pending) && i in nodes && nodes[i].nlink == 0
    ensures CountsOk(nodes - {i}, pending)
  {
    hide Names, NamedAt;
    var n := nodes - {i};
    CountAt(nodes, pending, i);
    forall a | a in n ensures CountOk(n, pending, a) {
      CountAt(nodes, pending, a);
      ReleasedNames(nodes, i, a);
    }
    forall a: nat, d: nat, y: nat | NamedAt(n, a, d, y) && a != 0 ensures a in n {
      ReleasedAt(nodes, i, a, d, y);
      NameCounts(nodes, pending, a, d, y);
    }
  }

  lemma ReleasedTree(nodes: Nodes, depth: map<nat, nat>, i: nat)
    requires DirsOk(nodes) && TreeOk(nodes, depth) && i in nodes && nodes[i].nlink == 0
    ensures TreeOk(nodes - {i}, depth)
  {
    var n := nodes - {i};
    forall d: nat, p: nat, y: nat ensures ChildAt(n, d, p, y) <==> ChildAt(nodes, d, p, y) { }
    forall d | d in n && LinkedDir(n[d]) && d != ROOTINO ensures HasParent(n, depth, d) {
      assert HasParent(nodes, depth, d);
      var k: nat :| ChildAt(nodes, d, Up(nodes[d]), k);
      assert ChildAt(n, d, Up(n[d]), k);
    }
    forall d: nat, p: nat, y: nat | ChildAt(n, d, p, y) && d in n && n[d].kind.Dir? ensures ChildOk(n, d, p, y) {
      assert ChildOk(nodes, d, p, y);
    }
  }

  lemma ReleaseKeeps(nodes: Nodes, depth: map<nat, nat>, pending: multiset<nat>, i: nat, last: bool)
    requires NsOk(nodes, depth, pending) && i in nodes
    ensures NsOk(Released(nodes, i, last), depth, pending)
  {
    hide CountsOk, TreeOk, DirOk;
    Clauses(nodes, depth, pending);
    Clauses(Released(nodes, i, last), depth, pending);
    if last && nodes[i].nlink == 0 {
      ReleasedCounts(nodes, pending, i);
      ReleasedTree(nodes, depth, i);
    }
  }

  // ----- Paths -----

  /** The names lead from directory d to inode i, as namex follows them. */
  ghost predicate PathTo(nodes: Nodes, d: nat, names: seq<string>, i: nat)
    decreases |names|
  {
    if names == [] then d == i
    else d in nodes && nodes[d].kind.Dir? && exists j: nat :: Holds(nodes[d].entries, names[0], j) && PathTo(nodes, nodes[d].entries[j].inum, names[1..], i)
  }

  /** A path leads to one inode. */
  lemma {:induction false} PathLeadsOnce(nodes: Nodes, d: nat, names: seq<string>, i: nat, k: nat)
    requires DirsOk(nodes) && PathTo(nodes, d, names, i) && PathTo(nodes, d, names, k)
    ensures i == k
    decreases |names|
  {
    if names != [] {
      var x: nat :| Holds(nodes[d].entries, names[0], x) && PathTo(nodes, nodes[d].entries[x].inum, names[1..], i);
      var y: nat :| Holds(nodes[d].entries, names[0], y) && PathTo(nodes, nodes[d].entries[y].inum, names[1..], k);
      assert DirOk(nodes[d], d);
      assert x == y;
      PathLeadsOnce(nodes, nodes[d].entries[x].inum, names[1..], i, k);
    }
  }

  lemma {:induction false} PathExtends(nodes: Nodes, d: nat, names: seq<string>, p: nat, name: string, j: nat)
    requires PathTo(nodes, d, names, p) && p in nodes && nodes[p].kind.Dir? && Holds(nodes[p].entries, name, j)
    ensures PathTo(nodes, d, names + [name], nodes[p].entries[j].inum)
    decreases |names|
  {
    var longer := names + [name];
    if names == [] {
      assert longer[1..] == [];
      assert Holds(nodes[d].entries, longer[0], j) && PathTo(nodes, nodes[d].entries[j].inum, longer[1..], nodes[p].entries[j].inum);
    } else {
      var x: nat :| Holds(nodes[d].entries, names[0], x) && PathTo(nodes, nodes[d].entries[x].inum, names[1..], p);
      PathExtends(nodes, nodes[d].entries[x].inum, names[1..], p, name, j);
      assert longer[1..] == names[1..] + [name];
      assert Holds(nodes[d].entries, longer[0], x) && PathTo(nodes, nodes[d].entries[x].inum, longer[1..], nodes[p].entries[j].inum);
    }
  }

  /** Every linked directory is reached from the root by names. */
  lemma {:induction false} DirReachable(nodes: Nodes, depth: map<nat, nat>, d: nat) returns (names: seq<string>)
    requires DirsOk(nodes) && TreeOk(nodes, depth) && d in nodes && LinkedDir(nodes[d]) && d in depth
    ensures PathTo(nodes, ROOTINO, names, d)
    decreases depth[d]
  {
    if d == ROOTINO {
      names := [];
    } else {
      assert HasParent(nodes, depth, d);
      var p := Up(nodes[d]);
      var j: nat :| ChildAt(nodes, d, p, j);
      var above := DirReachable(nodes, depth, p);
      PathExtends(nodes, ROOTINO, above, p, nodes[p].entries[j].name, j);
      names := above + [nodes[p].entries[j].name];
    }
  }

  /** Every inode whose link count exceeds its links under way is reached from the root by some path: nothing with a
      name is lost. */
  lemma AllReachable(nodes: Nodes, depth: map<nat, nat>, pending: multiset<nat>, i: nat) returns (names: seq<string>)
    requires NsOk(nodes, depth, pending) && i in nodes && nodes[i].nlink > pending[i]
    ensures PathTo(nodes, ROOTINO, names, i)
  {
    Clauses(nodes, depth, pending);
    CountAt(nodes, pending, i);
    assert Names(nodes, i) != {};
    var e :| e in Names(nodes, i);
    var d, j := e.0, e.1;
    assert NamedAt(nodes, i, d, j);
    DepthOf(nodes, depth, d);
    var above := DirReachable(nodes, depth, d);
    PathExtends(nodes, ROOTINO, above, d, nodes[d].entries[j].name, j);
    names := above + [nodes[d].entries[j].name];
  }

  /** A directory found by name in a linked directory is linked. */
  lemma StaysLinked(nodes: Nodes, depth: map<nat, nat>, pending: multiset<nat>, d: nat, j: nat)
    requires NsOk(nodes, depth, pending) && d in nodes && LinkedDir(nodes[d]) && j < |nodes[d].entries|
    requires nodes[d].entries[j].inum != 0
    ensures var i := nodes[d].entries[j].inum; i in nodes && (nodes[i].kind.Dir? ==> LinkedDir(nodes[i]))
  {
    hide CountsOk, Names;
    Clauses(nodes, depth, pending);
    var i := nodes[d].entries[j].inum;
    assert DirOk(nodes[d], d);
    if j != 0 { NameCounts(nodes, pending, i, d, j); }
  }

  // ----- The operations -----

  class FileTree {
    var nodes: Nodes
    ghost var depth: map<nat, nat>
    ghost var pending: multiset<nat>

    ghost predicate Valid()
      reads this
    {
      NsOk(nodes, depth, pending)
    }

    /** The root directory mkfs makes. */
    constructor ()
      ensures Valid() && nodes == Root() && pending == multiset{}
    {
      nodes := Root();
      depth := map[ROOTINO := 0];
      pending := multiset{};
      new;
      RootAlone();
    }

    /** dirlookup: the inode that name stands for in dp and the slot, or 0. */
    method Dirlookup(dp: nat, name: string) returns (inum: nat, off: nat)
      requires dp in nodes && nodes[dp].kind.Dir?
      ensures inum == 0 <==> Absent(nodes[dp].entries, name)
      ensures inum != 0 ==> Holds(nodes[dp].entries, name, off) && nodes[dp].entries[off].inum == inum
                            && forall k: nat :: k < off ==> !Holds(nodes[dp].entries, name, k)
    {
      var es := nodes[dp].entries;
      off := 0;
      while off < |es|
        invariant off <= |es| && forall k: nat :: k < off ==> !Holds(es, name, k)
      {
        if es[off].inum != 0 && es[off].name == name {
          assert Holds(es, name, off);
          return es[off].inum, off;
        }
        off := off + 1;
      }
      inum := 0;
    }

    /** dirlink: name is entered in the first unused slot, or at the end if the directory can grow. It fails, and
        changes nothing, when the name is there or nothing can be appended. */
    method Dirlink(dp: nat, name: string, inum: nat, room: bool) returns (ok: bool, off: nat)
      requires dp in nodes && nodes[dp].kind.Dir?
      modifies `nodes
      ensures ok <==> CanAdd(old(nodes[dp].entries), name, room)
      ensures ok ==> FreeSlot(old(nodes[dp].entries), off)
      ensures nodes == if ok then Put(old(nodes), dp, off, Dirent(inum, name)) else old(nodes)
    {
      var ip, _ := Dirlookup(dp, name);
      off := 0;
      if ip != 0 { return false, 0; }
      var es := nodes[dp].entries;
      while off < |es| && es[off].inum != 0
        invariant off <= |es| && forall k :: 0 <= k < off ==> es[k].inum != 0
      {
        off := off + 1;
      }
      if off == |es| && !room { return false, off; }
      nodes := Put(nodes, dp, off, Dirent(inum, name));
      ok := true;
    }

    /** isdirempty: nothing from the third slot on. */
    method Isdirempty(dp: nat) returns (empty: bool)
      requires dp in nodes
      ensures empty <==> Bare(nodes[dp].entries)
    {
      var es := nodes[dp].entries;
      var off := 2;
      while off < |es|
        invariant off >= 2 && forall k :: 2 <= k < off && k < |es| ==> es[k].inum == 0
      {
        if es[off].inum != 0 { return false; }
        off := off + 1;
      }
      empty := true;
    }

    /** What create's goto fail does once the inode exists: nothing is left of it. */
    method DropNew(ip: nat, ghost before: Nodes)
      requires ip in nodes && ip !in before && nodes == before[ip := nodes[ip]]
      modifies `nodes
      ensures nodes == before
    {
      nodes := Links(nodes, ip, 0);
      nodes := nodes - {ip};
    }

    /** The entries of a new directory, or failure with nothing left of it. */
    method FillNew(dp: nat, ip: nat, kind: Kind, room: bool, more: bool) returns (ok: bool)
      requires dp in nodes && ip !in nodes && ip != 0
      modifies `nodes
      ensures ok <==> (kind.Dir? ==> room && more)
      ensures nodes == if ok then old(nodes)[ip := NewNode(kind, ip, dp)] else old(nodes)
    {
      ghost var before := nodes;
      nodes := nodes[ip := Node(kind, 1, [])];
      ok := true;
      if kind.Dir? {
        var off;
        ok, off := Dirlink(ip, ".", ip, room);
        if ok {
          assert SetAt([], 0, Dirent(ip, ".")) == [Dirent(ip, ".")];
          assert nodes == before[ip := Node(kind, 1, [Dirent(ip, ".")])];
          assert |"."| != |".."|;
          ok, off := Dirlink(ip, "..", dp, more);
          assert SetAt([Dirent(ip, ".")], 1, Dirent(dp, "..")) == [Dirent(ip, "."), Dirent(dp, "..")];
        }
        if !ok { DropNew(ip, before); }
      }
    }

    /** create once the name is known to be new. */
    method AddNew(dp: nat, name: string, kind: Kind, ip: nat, room: bool, more: bool, space: bool) returns (ok: bool,
                  j: nat)
      requires dp in nodes && nodes[dp].kind.Dir? && ip !in nodes && ip != 0
      modifies `nodes
      ensures ok <==> CanAdd(old(nodes[dp].entries), name, space) && (kind.Dir? ==> room && more)
      ensures ok ==> CanCreate(old(nodes), dp, j, name, ip) && nodes == Created(old(nodes), dp, j, name, ip, kind)
      ensures !ok ==> nodes == old(nodes)
    {
      ghost var before := nodes;
      j := 0;
      ok := FillNew(dp, ip, kind, room, more);
      if !ok { return; }
      ok, j := Dirlink(dp, name, ip, space);
      if !ok {
        DropNew(ip, before);
        return;
      }
      if kind.Dir? { nodes := Links(nodes, dp, Bump(nodes[dp].nlink)); }
    }

    /** create, once nameiparent has found dp; ip is what ialloc will give, 0 when there is no inode left. The
        caller gets an inode that exists, a new one, or nothing; only a new one changes anything. Link counts and
        tree stay in order exactly when dp is still linked and its count does not wrap. The name can stand for an
        inode that is gone, which panics, only when it is ".." of a removed directory. */
    method Create(dp: nat, name: string, kind: Kind, ip: nat, room: bool, more: bool, space: bool) returns (r: Outcome)
      requires Valid() && dp in nodes && nodes[dp].kind.Dir? && ip !in nodes
      modifies this
      ensures pending == old(pending)
      ensures !Absent(old(nodes[dp].entries), name) ==>
              nodes == old(nodes) && Valid() && Opens(old(nodes), dp, name, kind, r)
      ensures r.Panicked? ==> name == ".." && !LinkedDir(old(nodes[dp]))
      ensures var added := ip != 0 && CanAdd(old(nodes[dp].entries), name, space) && (kind.Dir? ==> room && more);
              && (added ==> r == Found(ip) && exists j: nat ::
                    CanCreate(old(nodes), dp, j, name, ip) && nodes == Created(old(nodes), dp, j, name, ip, kind))
              && (added ==>
                    && ip in nodes && nodes[ip].kind == kind && nodes[ip].nlink == 1
                    && nodes[ip].entries == (if kind == Dir then [Dirent(ip, "."), Dirent(dp, "..")] else [])
                    && SameBut(old(nodes), nodes, {ip, dp})
                    && (exists j: nat :: Entered(old(nodes), nodes, dp, j, name, ip))
                    && nodes[dp].nlink == if kind == Dir then Bump(old(nodes[dp]).nlink) else old(nodes[dp]).nlink)
              && (added ==> (Valid() <==>
                    LinkedDir(old(nodes[dp])) && (kind.Dir? ==> old(nodes[dp]).nlink < SHRT_MAX)))
              && (!added && Absent(old(nodes[dp].entries), name) ==> r == Missing && nodes == old(nodes) && Valid())
    {
      hide NsOk, Created, Absent, Holds, Entered, SameBut;
      var found, off := Dirlookup(dp, name);
      if found != 0 {
        GoneIsAbove(nodes, depth, pending, dp, name, off);
        r := if found !in nodes then Panicked else if kind.File? && !nodes[found].kind.Dir? then Found(found) else Missing;
        FoundOpens(nodes, dp, name, kind, off, r);
        return;
      }
      if ip == 0 { return Missing; }
      ghost var before := nodes;
      var ok, j := AddNew(dp, name, kind, ip, room, more, space);
      if !ok { return Missing; }
      r := Found(ip);
      CreatedDirectly(before, dp, j, name, ip, kind);
      CreateExactly(before, depth, pending, dp, j, name, ip, kind);
      if LinkedDir(before[dp]) && (kind.Dir? ==> before[dp].nlink < SHRT_MAX) {
        CreateKeeps(before, depth, pending, dp, j, name, ip, kind);
        depth := depth[ip := depth[dp] + 1];
      }
    }

    /** The first half of link: the count of a file goes up before the new name exists. Directories are refused. */
    method LinkBegin(ip: nat) returns (ok: bool)
      requires Valid() && ip in nodes
      modifies this
      ensures ok <==> !old(nodes[ip]).kind.Dir?
      ensures nodes == (if ok then Links(old(nodes), ip, Bump(old(nodes[ip]).nlink)) else old(nodes))
      ensures depth == old(depth) && pending == (if ok then old(pending) + multiset{ip} else old(pending))
      ensures Valid() <==> !ok || old(nodes[ip]).nlink < SHRT_MAX
    {
      hide NsOk;
      if nodes[ip].kind.Dir? { return false; }
      LinkBeginExactly(nodes, depth, pending, ip);
      nodes := Links(nodes, ip, Bump(nodes[ip].nlink));
      pending := pending + multiset{ip};
      ok := true;
    }

    /** The second half: the name is entered in dp (0 when its path does not resolve), or the count goes back. */
    method LinkEnd(ip: nat, dp: nat, name: string, room: bool, last: bool) returns (ok: bool)
      requires Valid() && ip in pending && ip in nodes && (dp == 0 || (dp in nodes && nodes[dp].kind.Dir?))
      modifies this
      ensures depth == old(depth) && pending == old(pending) - multiset{ip}
      ensures ok <==> dp != 0 && CanAdd(old(nodes)[dp].entries, name, room)
      ensures ok ==> exists j: nat :: CanLink(old(nodes), old(pending), dp, j, name, ip) && nodes == Put(old(nodes), dp, j, Dirent(ip, name))
      ensures !ok ==> nodes == Released(Links(old(nodes), ip, Drop(old(nodes)[ip].nlink)), ip, last)
      ensures Valid() <==> !ok || LinkedDir(old(nodes)[dp])
    {
      hide DirsOk, TreeOk, CountOk;
      ghost var before := nodes;
      ok := false;
      if dp != 0 {
        var j;
        ok, j := Dirlink(dp, name, ip, room);
        if ok {
          LinkEndExactly(before, depth, pending, dp, j, name, ip);
          assert CanLink(before, pending, dp, j, name, ip);
          pending := pending - multiset{ip};
          return;
        }
      }
      LinkUndo(nodes, depth, pending, ip);
      nodes := Links(nodes, ip, Drop(nodes[ip].nlink));
      pending := pending - multiset{ip};
      Iput(ip, last);
    }

    /** link, when nothing comes between its halves: a failure leaves everything as it was. */
    method Link(ip: nat, dp: nat, name: string, room: bool, last: bool) returns (ok: bool)
      requires Valid() && ip in nodes && nodes[ip].nlink < SHRT_MAX && (dp == 0 || (dp in nodes && nodes[dp].kind.Dir?))
      modifies this
      ensures depth == old(depth) && pending == old(pending)
      ensures ok <==> !old(nodes[ip]).kind.Dir? && dp != 0 && CanAdd(old(nodes)[dp].entries, name, room)
      ensures ok ==>
              && (exists j: nat :: Entered(old(nodes), nodes, dp, j, name, ip)) && SameBut(old(nodes), nodes, {ip, dp})
              && ip != dp && ip in nodes && nodes[ip] == old(nodes[ip]).(nlink := old(nodes[ip]).nlink + 1)
              && nodes[dp].nlink == old(nodes)[dp].nlink
      ensures !ok && !old(nodes[ip]).kind.Dir? ==> nodes == Released(old(nodes), ip, last)
      ensures !ok && old(nodes[ip]).kind.Dir? ==> nodes == old(nodes)
      ensures Valid() <==> !ok || LinkedDir(old(nodes)[dp])
    {
      hide NsOk, Released;
      ghost var before := nodes;
      NotNegative(nodes, depth, pending, ip);
      ok := LinkBegin(ip);
      if !ok { return; }
      assert pending - multiset{ip} == old(pending);
      ghost var mid := nodes;
      ok := LinkEnd(ip, dp, name, room, last);
      if ok {
        ghost var j: nat :| CanLink(mid, old(pending) + multiset{ip}, dp, j, name, ip)
                            && nodes == Put(mid, dp, j, Dirent(ip, name));
        PutDirectly(mid, dp, j, name, ip);
        assert Entered(before, nodes, dp, j, name, ip);
      }
      assert Links(Links(before, ip, Bump(before[ip].nlink)), ip, Drop(Bump(before[ip].nlink))) == before;
    }

    /** unlink, once nameiparent has found dp: an inode that is named has a link, so it does not panic. */
    method Unlink(dp: nat, name: string, last: bool) returns (ok: bool)
      requires Valid() && dp in nodes && nodes[dp].kind.Dir?
      modifies this
      ensures Valid() && depth == old(depth) && pending == old(pending)
      ensures ok <==> name != "." && name != ".." && exists j: nat, i: nat :: CanUnlink(old(nodes), dp, j, i) && Holds(old(nodes[dp].entries), name, j)
      ensures ok ==> exists j: nat, i: nat :: CanUnlink(old(nodes), dp, j, i) && Holds(old(nodes[dp].entries), name, j) && i in old(nodes)
                                              && nodes == Released(Unlinked(old(nodes), dp, j, i), i, last)
      ensures ok ==> exists j: nat, i: nat ::
                && Holds(old(nodes[dp].entries), name, j) && old(nodes[dp].entries)[j].inum == i && i in old(nodes)
                && i != dp && Cleared(old(nodes), nodes, dp, j) && SameBut(old(nodes), nodes, {i, dp})
                && (i !in nodes <==> last && old(nodes)[i].nlink == 1)
                && (i in nodes ==> nodes[i] == old(nodes)[i].(nlink := old(nodes)[i].nlink - 1))
                && nodes[dp].nlink == old(nodes[dp]).nlink - if old(nodes)[i].kind == Dir then 1 else 0
      ensures !ok ==> nodes == old(nodes)
    {
      hide DirsOk, TreeOk, CountsOk, Unlinked, Released, Cleared, SameBut;
      ghost var before := nodes;
      if name == "." || name == ".." { return false; }
      var ip, off := Dirlookup(dp, name);
      if ip == 0 { return false; }
      GoneIsAbove(nodes, depth, pending, dp, name, off);
      OrderDirs(nodes, depth, pending);
      if nodes[ip].kind.Dir? {
        var empty := Isdirempty(ip);
        if !empty {
          FoundOnce(nodes, dp, name, off);
          return false;
        }
      }
      UnlinkKeeps(nodes, depth, pending, dp, off, ip);
      assert nodes[ip].nlink >= 1;
      NotOwnChild(nodes, depth, pending, dp, off, ip);
      UnlinkedDirectly(nodes, dp, off, ip, last);
      ClearEntry(dp, off, ip);
      assert CanUnlink(before, dp, off, ip);
      UnlinkedHas(before, dp, off, ip);
      Iput(ip, last);
      ok := true;
    }

    /** The stores of unlink: the entry is cleared, and the parent of a directory and the inode lose a link. */
    method ClearEntry(dp: nat, off: nat, ip: nat)
      requires dp in nodes && ip in nodes && off < |nodes[dp].entries|
      modifies `nodes
      ensures nodes == Unlinked(old(nodes), dp, off, ip)
    {
      var isDir := nodes[ip].kind.Dir?;
      nodes := Put(nodes, dp, off, Dirent(0, ""));
      if isDir { nodes := Links(nodes, dp, Drop(nodes[dp].nlink)); }
      nodes := Links(nodes, ip, Drop(nodes[ip].nlink));
    }

    /** iput: the inode goes with its last reference when it has no links. */
    method Iput(ip: nat, last: bool)
      requires Valid() && ip in nodes
      modifies `nodes
      ensures Valid() && nodes == Released(old(nodes), ip, last)
    {
      hide NsOk;
      ReleaseKeeps(nodes, depth, pending, ip, last);
      if last && nodes[ip].nlink == 0 { nodes := nodes - {ip}; }
    }

    /** namex from any directory, linked or removed: it finds what the names lead to, and panics exactly when they
        lead on through an inode that is gone, which from a linked directory they never do. */
    method Namei(d: nat, names: seq<string>) returns (r: Outcome)
      requires Valid() && d in nodes
      ensures r.Panicked? <==> LeadsThroughGone(nodes, d, names)
      ensures r.Found? ==> PathTo(nodes, d, names, r.ip)
      ensures r.Missing? ==> forall i :: !PathTo(nodes, d, names, i)
      ensures LinkedDir(nodes[d]) ==>
              !r.Panicked? && (r.Found? ==> r.ip in nodes && (nodes[r.ip].kind.Dir? ==> LinkedDir(nodes[r.ip])))
    {
      hide NsOk;
      var ip, k := d, 0;
      assert forall m :: 0 <= m <= |names| ==> names[..m] == names[0..m];
      while k < |names|
        invariant k <= |names| && PathTo(nodes, d, names[..k], ip)
        invariant LinkedDir(nodes[d]) ==> ip in nodes && (nodes[ip].kind.Dir? ==> LinkedDir(nodes[ip]))
        invariant forall m: nat, i :: m < k && PathTo(nodes, d, names[..m], i) ==> i in nodes
        invariant forall m: nat, i :: k <= m <= |names| && PathTo(nodes, d, names[..m], i) ==>
                  PathTo(nodes, ip, names[k..m], i)
      {
        if ip !in nodes { return Panicked; }
        assert names[k..k] == [];
        if !nodes[ip].kind.Dir? {
          NoWayOn(nodes, d, names, k, ip);
          return Missing;
        }
        var next, off := Dirlookup(ip, names[k]);
        if next == 0 {
          NoWayOn(nodes, d, names, k, ip);
          return Missing;
        }
        OrderDirs(nodes, depth, pending);
        PathStep(nodes, d, names, k, ip, off);
        if LinkedDir(nodes[d]) { StaysLinked(nodes, depth, pending, ip, off); }
        ip := next;
        k := k + 1;
      }
      assert names[..k] == names;
      r := Found(ip);
    }
  }

  /** What looking up or creating gives: an inode, nothing, or "ilock: no type". */
  datatype Outcome = Found(ip: nat) | Missing | Panicked

  /** Some of the names, but not all, lead to a number that no inode has. */
  ghost predicate LeadsThroughGone(nodes: Nodes, d: nat, names: seq<string>) {
    exists m: nat, i :: m < |names| && PathTo(nodes, d, names[..m], i) && i !in nodes
  }

  /** When the next name is not there, no longer path leads anywhere. */
  lemma NoWayOn(nodes: Nodes, d: nat, names: seq<string>, k: nat, ip: nat)
    requires k < |names| && ip in nodes && (nodes[ip].kind.Dir? ==> Absent(nodes[ip].entries, names[k]))
    requires forall m: nat, i :: m < k && PathTo(nodes, d, names[..m], i) ==> i in nodes
    requires forall m: nat, i :: k <= m <= |names| && PathTo(nodes, d, names[..m], i) ==>
             PathTo(nodes, ip, names[k..m], i)
    ensures !LeadsThroughGone(nodes, d, names)
    ensures forall i :: !PathTo(nodes, d, names, i)
  {
    forall m: nat, i | k < m <= |names| ensures !PathTo(nodes, d, names[..m], i) {
      assert names[k..m][0] == names[k];
    }
    forall i | PathTo(nodes, d, names[..k], i) ensures i in nodes { assert names[k..k] == []; }
    assert names[..|names|] == names;
  }

  lemma OrderDirs(nodes: Nodes, depth: map<nat, nat>, pending: multiset<nat>)
    requires NsOk(nodes, depth, pending)
    ensures DirsOk(nodes)
  {
    Clauses(nodes, depth, pending);
  }

  lemma NotNegative(nodes: Nodes, depth: map<nat, nat>, pending: multiset<nat>, i: nat)
    requires NsOk(nodes, depth, pending) && i in nodes
    ensures nodes[i].nlink >= 0
  {
    Clauses(nodes, depth, pending);
  }

  lemma RootPositive(nodes: Nodes, depth: map<nat, nat>, pending: multiset<nat>, ip: nat)
    requires NsOk(nodes, depth, pending) && ip in nodes
    ensures ip != 0
  {
    Clauses(nodes, depth, pending);
  }

  lemma PathStep(nodes: Nodes, d: nat, names: seq<string>, k: nat, ip: nat, off: nat)
    requires DirsOk(nodes) && k < |names| && ip in nodes && nodes[ip].kind.Dir?
    requires Holds(nodes[ip].entries, names[k], off)
    requires PathTo(nodes, d, names[..k], ip)
    requires forall m: nat, i :: m < k && PathTo(nodes, d, names[..m], i) ==> i in nodes
    requires forall m: nat, i :: k <= m <= |names| && PathTo(nodes, d, names[..m], i) ==>
             PathTo(nodes, ip, names[k..m], i)
    ensures var next := nodes[ip].entries[off].inum;
            && PathTo(nodes, d, names[..k + 1], next)
            && (forall m: nat, i :: m < k + 1 && PathTo(nodes, d, names[..m], i) ==> i in nodes)
            && forall m: nat, i :: k < m <= |names| && PathTo(nodes, d, names[..m], i) ==>
                   PathTo(nodes, next, names[k + 1..m], i)
  {
    hide PathTo, DirOk;
    PathExtends(nodes, d, names[..k], ip, names[k], off);
    assert names[..k] + [names[k]] == names[..k + 1];
    forall m: nat, i | m < k + 1 && PathTo(nodes, d, names[..m], i) ensures i in nodes {
      if m == k { PathLeadsOnce(nodes, d, names[..k], i, ip); }
    }
    forall m: nat, i | k < m <= |names| && PathTo(nodes, d, names[..m], i)
      ensures PathTo(nodes, nodes[ip].entries[off].inum, names[k + 1..m], i)
    {
      assert names[k..m][1..] == names[k + 1..m];
      PathTail(nodes, ip, names[k..m], off, i);
    }
  }

  lemma PathTail(nodes: Nodes, d: nat, names: seq<string>, j: nat, i: nat)
    requires DirsOk(nodes) && names != [] && d in nodes && nodes[d].kind.Dir? && Holds(nodes[d].entries, names[0], j)
    requires PathTo(nodes, d, names, i)
    ensures PathTo(nodes, nodes[d].entries[j].inum, names[1..], i)
  {
  }

  /** A name is in one slot. */
  lemma FoundOnce(nodes: Nodes, d: nat, name: string, j: nat)
    requires DirsOk(nodes) && d in nodes && nodes[d].kind.Dir? && Holds(nodes[d].entries, name, j)
    ensures forall k: nat :: Holds(nodes[d].entries, name, k) ==> k == j
  {
  }

  lemma UnlinkedHas(nodes: Nodes, dp: nat, j: nat, i: nat)
    requires dp in nodes && i in nodes && j < |nodes[dp].entries|
    ensures i in Unlinked(nodes, dp, j, i)
  {
  }

  /** What create gives for a name that is there: the file or device, when a file was asked for. */
  ghost predicate Opens(nodes: Nodes, dp: nat, name: string, kind: Kind, r: Outcome)
    requires dp in nodes
  {
    exists j: nat :: Holds(nodes[dp].entries, name, j) && r == OpensAs(nodes, nodes[dp].entries[j].inum, kind)
  }

  function OpensAs(nodes: Nodes, i: nat, kind: Kind): Outcome {
    if i !in nodes then Panicked else if kind.File? && !nodes[i].kind.Dir? then Found(i) else Missing
  }

  lemma FoundOpens(nodes: Nodes, dp: nat, name: string, kind: Kind, j: nat, r: Outcome)
    requires dp in nodes && Holds(nodes[dp].entries, name, j) && r == OpensAs(nodes, nodes[dp].entries[j].inum, kind)
    ensures Opens(nodes, dp, name, kind, r) && !Absent(nodes[dp].entries, name)
  {
  }

  /** dirlink can enter the name. */
  ghost predicate CanAdd(es: seq<Dirent>, name: string, room: bool) {
    Absent(es, name) && (room || exists e :: e in es && e.inum == 0)
  }

  /** What is found by name exists, unless it is ".." of a removed directory. */
  lemma GoneIsAbove(nodes: Nodes, depth: map<nat, nat>, pending: multiset<nat>, d: nat, name: string, j: nat)
    requires NsOk(nodes, depth, pending) && d in nodes && nodes[d].kind.Dir? && Holds(nodes[d].entries, name, j)
    ensures nodes[d].entries[j].inum !in nodes ==> name == ".." && !LinkedDir(nodes[d])
  {
    hide CountsOk, TreeOk;
    Clauses(nodes, depth, pending);
    assert DirOk(nodes[d], d);
    if LinkedDir(nodes[d]) { StaysLinked(nodes, depth, pending, d, j); }
  }

  function Root(): Nodes { map[ROOTINO := Node(Dir, 1, [Dirent(ROOTINO, "."), Dirent(ROOTINO, "..")])] }

  lemma RootNames()
    ensures Names(Root(), ROOTINO) == {(ROOTINO, 1)}
  {
  }

  lemma RootCounts()
    ensures CountsOk(Root(), multiset{})
  {
    hide Names;
    RootNames();
    assert CountOk(Root(), multiset{}, ROOTINO);
  }

  lemma RootTree()
    ensures DirsOk(Root()) && TreeOk(Root(), map[ROOTINO := 0])
  {
  }

  lemma RootAlone()
    ensures NsOk(Root(), map[ROOTINO := 0], multiset{})
  {
    hide DirsOk, CountsOk, TreeOk;
    Clauses(Root(), map[ROOTINO := 0], multiset{});
    RootCounts();
    RootTree();
  }

  // ----- Runs -----

  /** The file system, with its history: how often each number was allocated, for which of these inodes each
      directory slot was written, and the directories whose parent was freed after they were removed. */
  datatype State = State(nodes: Nodes, pending: multiset<nat>, gens: map<nat, nat>, entered: map<(nat, nat), nat>, orphans: set<nat>)

  function Init(): State { State(Root(), multiset{}, map[], map[(ROOTINO, 0) := 0, (ROOTINO, 1) := 0], {}) }

  function Gen(gens: map<nat, nat>, i: nat): nat { if i in gens then gens[i] else 0 }

  function EnteredNew(s: State, dp: nat, j: nat, ip: nat, kind: Kind): map<(nat, nat), nat> {
    var g := Gen(s.gens, ip) + 1;
    var inDp := s.entered[(dp, j) := g];
    if kind.Dir? then inDp[(ip, 0) := g][(ip, 1) := Gen(s.gens, dp)] else inDp
  }

  /** Directories whose ".." names p. */
  ghost function Below(nodes: Nodes, p: nat): set<nat> {
    set d | d in nodes && d != p && nodes[d].kind.Dir? && Up(nodes[d]) == p
  }

  /** What the operations do to the file system, one locked section at a time. */
  datatype Action =
    | AddNode(dp: nat, j: nat, name: string, ip: nat, kind: Kind)
    | CountLink(ip: nat)
    | EnterLink(dp: nat, j: nat, name: string, ip: nat)
    | UndoLink(ip: nat)
    | RemoveName(dp: nat, j: nat, ip: nat)
    | LastRef(ip: nat)

  ghost predicate Can(s: State, a: Action) {
    match a
    case AddNode(dp, j, name, ip, _) => CanCreate(s.nodes, dp, j, name, ip)
    case CountLink(ip) => ip in s.nodes && !s.nodes[ip].kind.Dir?
    case EnterLink(dp, j, name, ip) => CanLink(s.nodes, s.pending, dp, j, name, ip)
    case UndoLink(ip) => ip in s.nodes && ip in s.pending
    case RemoveName(dp, j, ip) => CanUnlink(s.nodes, dp, j, ip) && ip in s.nodes
    case LastRef(ip) => ip in s.nodes
  }

  ghost function Do(s: State, a: Action): State
    requires Can(s, a)
  {
    match a
    case AddNode(dp, j, name, ip, kind) =>
      s.(nodes := Created(s.nodes, dp, j, name, ip, kind), gens := s.gens[ip := Gen(s.gens, ip) + 1],
         entered := EnteredNew(s, dp, j, ip, kind))
    case CountLink(ip) => s.(nodes := Links(s.nodes, ip, Bump(s.nodes[ip].nlink)), pending := s.pending + multiset{ip})
    case EnterLink(dp, j, name, ip) =>
      s.(nodes := Put(s.nodes, dp, j, Dirent(ip, name)), pending := s.pending - multiset{ip},
         entered := s.entered[(dp, j) := Gen(s.gens, ip)])
    case UndoLink(ip) => s.(nodes := Links(s.nodes, ip, Drop(s.nodes[ip].nlink)), pending := s.pending - multiset{ip})
    case RemoveName(dp, j, ip) => s.(nodes := Unlinked(s.nodes, dp, j, ip))
    case LastRef(ip) =>
      s.(nodes := Released(s.nodes, ip, true),
         orphans := if s.nodes[ip].nlink == 0 then s.orphans - {ip} + Below(s.nodes, ip) else s.orphans)
  }

  /** Names go into linked directories, and no link count wraps. */
  ghost predicate InScope(s: State, a: Action)
    requires Can(s, a)
  {
    match a
    case AddNode(dp, _, _, _, kind) => LinkedDir(s.nodes[dp]) && (kind.Dir? ==> s.nodes[dp].nlink < SHRT_MAX)
    case CountLink(ip) => s.nodes[ip].nlink < SHRT_MAX
    case EnterLink(dp, _, _, _) => LinkedDir(s.nodes[dp])
    case _ => true
  }

  ghost predicate InOrder(s: State) { exists depth :: NsOk(s.nodes, depth, s.pending) }

  /** A step leaves link counts, names and tree in order exactly when it is in scope. */
  lemma StepExactly(s: State, a: Action)
    requires InOrder(s) && Can(s, a)
    ensures InOrder(Do(s, a)) <==> InScope(s, a)
  {
    hide NsOk, Created, Unlinked, Released;
    var depth :| NsOk(s.nodes, depth, s.pending);
    match a {
      case AddNode(dp, j, name, ip, kind) => CreateExactly(s.nodes, depth, s.pending, dp, j, name, ip, kind);
      case CountLink(ip) =>
        forall other | NsOk(Do(s, a).nodes, other, Do(s, a).pending)
          ensures InScope(s, a)
        {
          CountLinkInScope(s, other, ip);
        }
        LinkBeginExactly(s.nodes, depth, s.pending, ip);
      case EnterLink(dp, j, name, ip) =>
        OrderCounts(s.nodes, depth, s.pending);
        forall other | NsOk(Do(s, a).nodes, other, Do(s, a).pending)
          ensures InScope(s, a)
        {
          EnterLinkInScope(s.nodes, s.pending, other, dp, j, name, ip);
        }
        LinkEndExactly(s.nodes, depth, s.pending, dp, j, name, ip);
      case UndoLink(ip) => LinkUndo(s.nodes, depth, s.pending, ip);
      case RemoveName(dp, j, ip) => UnlinkKeeps(s.nodes, depth, s.pending, dp, j, ip);
      case LastRef(ip) => ReleaseKeeps(s.nodes, depth, s.pending, ip, true);
    }
  }

  lemma OrderCounts(nodes: Nodes, depth: map<nat, nat>, pending: multiset<nat>)
    requires NsOk(nodes, depth, pending)
    ensures CountsOk(nodes, pending)
  {
    Clauses(nodes, depth, pending);
  }

  lemma CountLinkInScope(s: State, depth: map<nat, nat>, ip: nat)
    requires Can(s, CountLink(ip)) && NsOk(Do(s, CountLink(ip)).nodes, depth, Do(s, CountLink(ip)).pending)
    ensures s.nodes[ip].nlink < SHRT_MAX
  {
    Clauses(Do(s, CountLink(ip)).nodes, depth, Do(s, CountLink(ip)).pending);
    CountAt(Do(s, CountLink(ip)).nodes, Do(s, CountLink(ip)).pending, ip);
  }

  lemma EnterLinkInScope(nodes: Nodes, pending: multiset<nat>, other: map<nat, nat>, dp: nat, j: nat, name: string,
                         ip: nat)
    requires CountsOk(nodes, pending) && CanLink(nodes, pending, dp, j, name, ip)
    requires NsOk(Put(nodes, dp, j, Dirent(ip, name)), other, pending - multiset{ip})
    ensures LinkedDir(nodes[dp])
  {
    hide DirsOk, TreeOk, CountsOk;
    Clauses(Put(nodes, dp, j, Dirent(ip, name)), other, pending - multiset{ip});
    if !LinkedDir(nodes[dp]) { LostLink(nodes, pending, dp, j, name, ip); }
  }

  /** The steps lead from s to t, each in scope. */
  ghost predicate Leads(s: State, steps: seq<Action>, t: State)
    decreases |steps|
  {
    if steps == [] then s == t
    else Can(s, steps[0]) && InScope(s, steps[0]) && Leads(Do(s, steps[0]), steps[1..], t)
  }

  lemma {:induction false} RunsKeepOrder(s: State, steps: seq<Action>, t: State)
    requires InOrder(s) && Leads(s, steps, t)
    ensures InOrder(t)
    decreases |steps|
  {
    hide InOrder, Can, Do, InScope;
    if steps != [] {
      StepExactly(s, steps[0]);
      RunsKeepOrder(Do(s, steps[0]), steps[1..], t);
    }
  }

  /** After any run on a new file system: a link count is the number of names and links under way, names in a
      directory are different, and whatever has a name is reached from the root. */
  lemma NamespaceTheorem(steps: seq<Action>, t: State, i: nat)
    requires Leads(Init(), steps, t) && i in t.nodes
    ensures t.nodes[i].nlink == |Names(t.nodes, i)| + t.pending[i]
    ensures t.nodes[i].kind.Dir? ==> UniqueNames(t.nodes[i].entries)
    ensures t.nodes[i].nlink > t.pending[i] ==> exists names :: PathTo(t.nodes, ROOTINO, names, i)
    ensures t.nodes[i].kind.Dir? && t.nodes[i].nlink > 0 && i != ROOTINO ==>
              exists p: nat, j: nat :: ChildAt(t.nodes, i, p, j) && Up(t.nodes[i]) == p
                                       && forall x: nat, k: nat :: ChildAt(t.nodes, i, x, k) ==> x == p && k == j
  {
    hide Names, PathTo, CountsOk;
    RootInOrder();
    RunsKeepOrder(Init(), steps, t);
    var depth :| NsOk(t.nodes, depth, t.pending);
    Clauses(t.nodes, depth, t.pending);
    CountAt(t.nodes, t.pending, i);
    assert DirOk(t.nodes[i], i);
    if t.nodes[i].nlink > t.pending[i] {
      var names := AllReachable(t.nodes, depth, t.pending, i);
    }
    if t.nodes[i].kind.Dir? && t.nodes[i].nlink > 0 && i != ROOTINO {
      OnePlace(t.nodes, depth, i);
    }
  }

  lemma OnePlace(nodes: Nodes, depth: map<nat, nat>, d: nat)
    requires TreeOk(nodes, depth) && d in nodes && LinkedDir(nodes[d]) && d != ROOTINO
    ensures exists p: nat, j: nat :: ChildAt(nodes, d, p, j) && Up(nodes[d]) == p
                                     && forall x: nat, k: nat :: ChildAt(nodes, d, x, k) ==> x == p && k == j
  {
  }

  /** mkdir a, on a new file system. */
  function MadeA(): Nodes {
    map[1 := Node(Dir, 2, [Dirent(1, "."), Dirent(1, ".."), Dirent(2, "a")]), 2 := Node(Dir, 1, [Dirent(2, "."), Dirent(1, "..")])]
  }

  /** rmdir a, while it is somebody's current directory. */
  function RemovedA(): Nodes {
    map[1 := Node(Dir, 1, [Dirent(1, "."), Dirent(1, ".."), Dirent(0, "")]), 2 := Node(Dir, 0, [Dirent(2, "."), Dirent(1, "..")])]
  }

  lemma MakeA()
    ensures CanCreate(Root(), ROOTINO, 2, "a", 2) && Created(Root(), ROOTINO, 2, "a", 2, Dir) == MadeA()
  {
    assert "a"[0] == 'a' && "."[0] == '.' && ".."[0] == '.';
    var n := Put(Root()[2 := NewNode(Dir, 2, 1)], 1, 2, Dirent(2, "a"));
    assert n[1].entries == MadeA()[1].entries;
  }

  lemma RemoveA()
    ensures CanUnlink(MadeA(), ROOTINO, 2, 2) && Unlinked(MadeA(), ROOTINO, 2, 2) == RemovedA()
  {
    assert "a"[0] == 'a' && "."[0] == '.' && ".."[0] == '.';
    assert MadeA()[1].entries[2 := Dirent(0, "")] == RemovedA()[1].entries;
  }

  lemma CreateInRemoved()
    ensures CanCreate(RemovedA(), 2, 2, "f", 3) && !LinkedDir(RemovedA()[2])
  {
  }

  /** A directory that is removed while it is somebody's current directory still takes files, and they are lost:
      mkdir a, rmdir a, and then a file created in a, which has link count 1 and no name in a linked directory. */
  lemma RemovedParentLosesFile() returns (t: State)
    ensures var steps := [AddNode(ROOTINO, 2, "a", 2, Dir), RemoveName(ROOTINO, 2, 2)];
            var last := AddNode(2, 2, "f", 3, File);
            && Leads(Init(), steps, t) && t.nodes == RemovedA() && InOrder(t) && Can(t, last) && !InOrder(Do(t, last))
  {
    hide InOrder, CanCreate, CanUnlink, Created, Unlinked, RemovedA, MadeA, Root;
    var steps := [AddNode(ROOTINO, 2, "a", 2, Dir), RemoveName(ROOTINO, 2, 2)];
    RootInOrder();
    MakeA();
    MadeAFacts();
    RemoveA();
    CreateInRemoved();
    var s := Do(Init(), steps[0]);
    t := Do(s, steps[1]);
    assert Leads(t, steps[1..][1..], t);
    assert Leads(s, steps[1..], t);
    RunsKeepOrder(Init(), steps, t);
    StepExactly(t, AddNode(2, 2, "f", 3, File));
  }

  lemma RootInOrder()
    ensures InOrder(Init()) && LinkedDir(Root()[ROOTINO]) && Root()[ROOTINO].nlink < SHRT_MAX
  {
    RootAlone();
  }

  lemma MadeAFacts()
    ensures 2 in MadeA()
  {
  }

  // ----- What a name leads to -----

  ghost predicate Used(nodes: Nodes, d: nat, j: nat) {
    d in nodes && nodes[d].kind.Dir? && j < |nodes[d].entries| && nodes[d].entries[j].inum != 0
  }

  /** The inode that slot j of directory d was written for is still there. */
  ghost predicate LeadsHome(s: State, d: nat, j: nat)
    requires Used(s.nodes, d, j)
  {
    var i := s.nodes[d].entries[j].inum;
    i in s.nodes && (d, j) in s.entered && s.entered[(d, j)] == Gen(s.gens, i)
  }

  ghost predicate SlotOk(s: State, d: nat, j: nat)
    requires Used(s.nodes, d, j)
  {
    && (d, j) in s.entered && s.entered[(d, j)] <= Gen(s.gens, s.nodes[d].entries[j].inum)
    && (LeadsHome(s, d, j) <==> !(j == 1 && d in s.orphans))
  }

  ghost predicate HistoryOk(s: State) {
    && (forall d: nat, j: nat :: Used(s.nodes, d, j) ==> SlotOk(s, d, j))
    && (forall d :: d in s.orphans ==> d in s.nodes && s.nodes[d].kind.Dir? && !LinkedDir(s.nodes[d]))
  }

  lemma AddNodeSlot(s: State, a: Action, d: nat, j: nat)
    requires InOrder(s) && HistoryOk(s) && a.AddNode? && Can(s, a) && InScope(s, a) && Used(Do(s, a).nodes, d, j)
    ensures SlotOk(Do(s, a), d, j)
  {
    hide InOrder, Absent;
    var t := Do(s, a);
    OrderFacts(s, a.dp);
    FreePastDots(s.nodes, a.dp, a.j);
    assert a.ip !in s.orphans && a.dp !in s.orphans;
    if !(d == a.dp && j == a.j) && d != a.ip {
      assert t.nodes[d].entries[j] == s.nodes[d].entries[j];
      assert SlotOk(s, d, j);
    }
  }

  lemma OrderFacts(s: State, d: nat)
    requires InOrder(s) && d in s.nodes
    ensures DirsOk(s.nodes) && DirOk(s.nodes[d], d)
  {
    hide TreeOk;
    var depth :| NsOk(s.nodes, depth, s.pending);
    Clauses(s.nodes, depth, s.pending);
  }

  lemma AddNodeKeeps(s: State, a: Action)
    requires InOrder(s) && HistoryOk(s) && a.AddNode? && Can(s, a) && InScope(s, a)
    ensures HistoryOk(Do(s, a))
  {
    hide SlotOk, InOrder;
    forall d: nat, j: nat | Used(Do(s, a).nodes, d, j) ensures SlotOk(Do(s, a), d, j) { AddNodeSlot(s, a, d, j); }
  }

  lemma EnterLinkKeeps(s: State, a: Action)
    requires InOrder(s) && HistoryOk(s) && a.EnterLink? && Can(s, a) && InScope(s, a)
    ensures HistoryOk(Do(s, a))
  {
    hide InOrder, Absent;
    var t := Do(s, a);
    OrderFacts(s, a.dp);
    FreePastDots(s.nodes, a.dp, a.j);
    PendingFile(s, a.ip);
    forall d: nat, j: nat | Used(t.nodes, d, j) ensures SlotOk(t, d, j) {
      if d != a.dp || j != a.j { assert SlotOk(s, d, j); }
    }
  }

  lemma RemoveKeeps(s: State, a: Action)
    requires InOrder(s) && HistoryOk(s) && a.RemoveName? && Can(s, a)
    ensures HistoryOk(Do(s, a))
  {
    hide NsOk, Unlinked;
    var t := Do(s, a);
    var depth :| NsOk(s.nodes, depth, s.pending);
    UnlinkedSame(s.nodes, depth, s.pending, a.dp, a.j, a.ip, a.ip);
    forall d: nat | d in s.nodes ensures LinkedDir(t.nodes[d]) ==> LinkedDir(s.nodes[d]) {
      UnlinkedSame(s.nodes, depth, s.pending, a.dp, a.j, a.ip, d);
    }
    forall d: nat | d in s.orphans ensures d in t.nodes && t.nodes[d].kind.Dir? {
      UnlinkedSame(s.nodes, depth, s.pending, a.dp, a.j, a.ip, d);
    }
    forall d: nat, j: nat | Used(t.nodes, d, j) ensures SlotOk(t, d, j) {
      UnlinkedSame(s.nodes, depth, s.pending, a.dp, a.j, a.ip, d);
      assert Used(s.nodes, d, j) && t.nodes[d].entries[j] == s.nodes[d].entries[j];
      assert SlotOk(s, d, j);
    }
  }

  /** What names an unlinked inode: "." of it, or ".." of a removed directory. */
  lemma NamesUnlinked(s: State, i: nat, d: nat, j: nat)
    requires InOrder(s) && i in s.nodes && s.nodes[i].nlink == 0 && Used(s.nodes, d, j)
    requires s.nodes[d].entries[j].inum == i && d != i
    ensures j == 1
  {
    hide CountsOk;
    var depth :| NsOk(s.nodes, depth, s.pending);
    Clauses(s.nodes, depth, s.pending);
    assert DirOk(s.nodes[d], d);
    if LinkedDir(s.nodes[d]) && j != 0 { NameCounts(s.nodes, s.pending, i, d, j); }
  }

  lemma LastRefKeeps(s: State, a: Action)
    requires InOrder(s) && HistoryOk(s) && a.LastRef? && Can(s, a)
    ensures HistoryOk(Do(s, a))
  {
    hide InOrder, SlotOk, Below;
    var t := Do(s, a);
    if s.nodes[a.ip].nlink == 0 {
      forall d: nat, j: nat | Used(t.nodes, d, j) ensures SlotOk(t, d, j) { LastRefSlot(s, t, a.ip, d, j); }
      forall d: nat | d in t.orphans ensures d in t.nodes && t.nodes[d].kind.Dir? && !LinkedDir(t.nodes[d]) {
        if d in Below(s.nodes, a.ip) { BelowRemoved(s, a.ip, d); }
      }
    }
  }

  lemma LastRefSlot(s: State, t: State, i: nat, d: nat, j: nat)
    requires InOrder(s) && HistoryOk(s) && i in s.nodes && s.nodes[i].nlink == 0
    requires t == s.(nodes := s.nodes - {i}, orphans := s.orphans - {i} + Below(s.nodes, i)) && Used(t.nodes, d, j)
    ensures SlotOk(t, d, j)
  {
    hide InOrder;
    assert SlotOk(s, d, j);
    if s.nodes[d].entries[j].inum == i { NamesUnlinked(s, i, d, j); }
  }

  /** ".." of a linked directory leads to a linked one. */
  lemma AboveLinked(nodes: Nodes, depth: map<nat, nat>, d: nat)
    requires TreeOk(nodes, depth) && d in nodes && LinkedDir(nodes[d])
    ensures Up(nodes[d]) in nodes && LinkedDir(nodes[Up(nodes[d])])
  {
    if d != ROOTINO { assert HasParent(nodes, depth, d); }
  }

  lemma BelowRemoved(s: State, i: nat, d: nat)
    requires InOrder(s) && i in s.nodes && s.nodes[i].nlink == 0 && d in Below(s.nodes, i)
    ensures d in s.nodes && d != i && s.nodes[d].kind.Dir? && !LinkedDir(s.nodes[d])
  {
    hide CountsOk, DirsOk, TreeOk;
    var depth :| NsOk(s.nodes, depth, s.pending);
    Clauses(s.nodes, depth, s.pending);
    if LinkedDir(s.nodes[d]) { AboveLinked(s.nodes, depth, d); }
  }

  lemma CountKeeps(s: State, a: Action)
    requires HistoryOk(s) && (a.CountLink? || a.UndoLink?) && Can(s, a) && !s.nodes[a.ip].kind.Dir?
    ensures HistoryOk(Do(s, a))
  {
    var t := Do(s, a);
    forall d: nat, j: nat | Used(t.nodes, d, j) ensures SlotOk(t, d, j) { assert SlotOk(s, d, j); }
  }

  lemma PendingFile(s: State, i: nat)
    requires InOrder(s) && i in s.pending
    ensures i in s.nodes && !s.nodes[i].kind.Dir?
  {
    hide TreeOk;
    var depth :| NsOk(s.nodes, depth, s.pending);
    Clauses(s.nodes, depth, s.pending);
  }

  lemma StepKeepsHistory(s: State, a: Action)
    requires InOrder(s) && HistoryOk(s) && Can(s, a) && InScope(s, a)
    ensures HistoryOk(Do(s, a))
  {
    hide InOrder, HistoryOk, Do, InScope;
    match a
    case AddNode(_, _, _, _, _) => AddNodeKeeps(s, a);
    case CountLink(_) => CountKeeps(s, a);
    case EnterLink(_, _, _, _) => EnterLinkKeeps(s, a);
    case UndoLink(ip) =>
      PendingFile(s, ip);
      CountKeeps(s, a);
    case RemoveName(_, _, _) => RemoveKeeps(s, a);
    case LastRef(_) => LastRefKeeps(s, a);
  }

  lemma {:induction false} RunsKeepHistory(s: State, steps: seq<Action>, t: State)
    requires InOrder(s) && HistoryOk(s) && Leads(s, steps, t)
    ensures InOrder(t) && HistoryOk(t)
    decreases |steps|
  {
    hide InOrder, HistoryOk, Can, Do, InScope;
    if steps != [] {
      StepExactly(s, steps[0]);
      StepKeepsHistory(s, steps[0]);
      RunsKeepHistory(Do(s, steps[0]), steps[1..], t);
    }
  }

  lemma InitHistory()
    ensures InOrder(Init()) && HistoryOk(Init())
  {
    hide InOrder;
    RootInOrder();
  }

  /** After any run on a new file system, a name in a directory leads to the inode it was entered for exactly when
      it is not "..", or the directory is linked, or no parent of it has been freed since it was removed. */
  lemma NameLeadsHomeExactly(steps: seq<Action>, t: State, d: nat, name: string, j: nat)
    requires Leads(Init(), steps, t) && d in t.nodes && t.nodes[d].kind.Dir? && Holds(t.nodes[d].entries, name, j)
    ensures LeadsHome(t, d, j) <==> name != ".." || LinkedDir(t.nodes[d]) || d !in t.orphans
  {
    hide InOrder, Can, Do, InScope;
    InitHistory();
    RunsKeepHistory(Init(), steps, t);
    OrderFacts(t, d);
    assert Used(t.nodes, d, j) && SlotOk(t, d, j);
    assert |".."| != |"."|;
    assert name == ".." <==> j == 1;
  }

  /** Following names from a directory through directories that are linked or not orphaned stays with the inodes
      the names were entered for: namex does not panic. */
  lemma {:induction false} CleanWalk(steps: seq<Action>, t: State, d: nat, names: seq<string>, i: nat)
    requires Leads(Init(), steps, t) && d in t.nodes && PathTo(t.nodes, d, names, i)
    requires forall m: nat, x :: m < |names| && PathTo(t.nodes, d, names[..m], x) && names[m] == ".." ==>
               x in t.nodes && (LinkedDir(t.nodes[x]) || x !in t.orphans)
    ensures i in t.nodes
    decreases |names|
  {
    hide InOrder, Can, Do, InScope, LinkedDir;
    if names != [] {
      var j: nat :| Holds(t.nodes[d].entries, names[0], j) && PathTo(t.nodes, t.nodes[d].entries[j].inum, names[1..], i);
      assert names[..0] == [];
      NameLeadsHomeExactly(steps, t, d, names[0], j);
      var next := t.nodes[d].entries[j].inum;
      forall m: nat, x | m < |names| - 1 && PathTo(t.nodes, next, names[1..][..m], x) && names[1..][m] == ".."
        ensures x in t.nodes && (LinkedDir(t.nodes[x]) || x !in t.orphans)
      {
        assert names[..m + 1][1..] == names[1..][..m];
        assert PathTo(t.nodes, d, names[..m + 1], x);
      }
      CleanWalk(steps, t, next, names[1..], i);
    }
  }

  // ----- ".." of a removed directory -----

  const TOP := [Dirent(1, "."), Dirent(1, "..")]
  const A := [Dirent(2, "."), Dirent(1, "..")]
  const B := [Dirent(3, "."), Dirent(2, "..")]
  const NOTHING := Dirent(0, "")

  function WithB(): Nodes {
    map[1 := Node(Dir, 2, TOP + [Dirent(2, "a")]), 2 := Node(Dir, 2, A + [Dirent(3, "b")]), 3 := Node(Dir, 1, B)]
  }

  function WithoutB(): Nodes {
    map[1 := Node(Dir, 2, TOP + [Dirent(2, "a")]), 2 := Node(Dir, 1, A + [NOTHING]), 3 := Node(Dir, 0, B)]
  }

  function WithoutA(): Nodes {
    map[1 := Node(Dir, 1, TOP + [NOTHING]), 2 := Node(Dir, 0, A + [NOTHING]), 3 := Node(Dir, 0, B)]
  }

  function OnlyB(): Nodes { map[1 := Node(Dir, 1, TOP + [NOTHING]), 3 := Node(Dir, 0, B)] }

  function WithC(): Nodes {
    map[1 := Node(Dir, 1, TOP + [Dirent(2, "c")]), 2 := Node(File, 1, []), 3 := Node(Dir, 0, B)]
  }

  lemma MakeB()
    ensures CanCreate(MadeA(), 2, 2, "b", 3) && Created(MadeA(), 2, 2, "b", 3, Dir) == WithB()
  {
    assert "b"[0] == 'b' && "."[0] == '.' && ".."[0] == '.';
    var n := Put(MadeA()[3 := NewNode(Dir, 3, 2)], 2, 2, Dirent(3, "b"));
    assert n[2].entries == WithB()[2].entries;
    assert MadeA()[1] == WithB()[1] by { assert TOP + [Dirent(2, "a")] == MadeA()[1].entries; }
  }

  lemma RemoveB()
    ensures CanUnlink(WithB(), 2, 2, 3) && Unlinked(WithB(), 2, 2, 3) == WithoutB()
  {
    assert "b"[0] == 'b' && "."[0] == '.' && ".."[0] == '.';
    assert WithB()[2].entries[2 := NOTHING] == WithoutB()[2].entries;
  }

  lemma RemoveEmptyA()
    ensures CanUnlink(WithoutB(), 1, 2, 2) && Unlinked(WithoutB(), 1, 2, 2) == WithoutA()
  {
    assert "a"[0] == 'a' && "."[0] == '.' && ".."[0] == '.';
    assert WithoutB()[1].entries[2 := NOTHING] == WithoutA()[1].entries;
  }

  lemma ReleaseA()
    ensures Released(WithoutA(), 2, true) == OnlyB()
  {
  }

  lemma MakeC()
    ensures CanCreate(OnlyB(), 1, 2, "c", 2) && Created(OnlyB(), 1, 2, "c", 2, File) == WithC()
  {
    assert "c"[0] == 'c' && "."[0] == '.' && ".."[0] == '.';
    var n := Put(OnlyB()[2 := NewNode(File, 2, 1)], 1, 2, Dirent(2, "c"));
    assert n[1].entries == WithC()[1].entries;
  }

  /** One more step. */
  lemma {:induction false} LeadsOn(s: State, steps: seq<Action>, t: State, a: Action)
    requires Leads(s, steps, t) && Can(t, a) && InScope(t, a)
    ensures Leads(s, steps + [a], Do(t, a))
    decreases |steps|
  {
    hide Can, Do, InScope;
    if steps == [] {
      assert (steps + [a])[1..] == [];
    } else {
      LeadsOn(Do(s, steps[0]), steps[1..], t, a);
      assert (steps + [a])[1..] == steps[1..] + [a];
    }
  }

  lemma LinkedOnTheWay()
    ensures 2 in MadeA() && LinkedDir(MadeA()[2]) && MadeA()[2].nlink < SHRT_MAX && 3 in WithB() && 2 in WithoutB()
  {
  }

  lemma Advance(steps: seq<Action>, s: State, a: Action) returns (longer: seq<Action>, t: State)
    requires Leads(Init(), steps, s) && Can(s, a) && InScope(s, a)
    ensures Leads(Init(), longer, t) && t == Do(s, a)
  {
    LeadsOn(Init(), steps, s, a);
    longer, t := steps + [a], Do(s, a);
  }

  /** mkdir a and a/b, then rmdir both while a process is in a/b. */
  lemma RemovedBoth() returns (steps: seq<Action>, t: State)
    ensures Leads(Init(), steps, t) && t.nodes == WithoutA()
  {
    hide Created, Unlinked, CanCreate, CanUnlink, Root, MadeA, WithB, WithoutB, WithoutA;
    RootInOrder();
    MakeA();
    MakeB();
    RemoveB();
    RemoveEmptyA();
    LinkedOnTheWay();
    assert Leads(Init(), [], Init());
    steps, t := Advance([], Init(), AddNode(1, 2, "a", 2, Dir));
    steps, t := Advance(steps, t, AddNode(2, 2, "b", 3, Dir));
    steps, t := Advance(steps, t, RemoveName(2, 2, 3));
    steps, t := Advance(steps, t, RemoveName(1, 2, 2));
  }

  /** When a is then freed, ".." in a/b names no inode and "../x" panics; */
  lemma ParentGone() returns (steps: seq<Action>, t: State)
    ensures Leads(Init(), steps, t) && 3 in t.nodes && Holds(t.nodes[3].entries, "..", 1) && Up(t.nodes[3]) == 2
    ensures 2 !in t.nodes && LeadsThroughGone(t.nodes, 3, ["..", "x"]) && t.nodes == OnlyB() && 3 in t.orphans
  {
    hide Leads, WithoutA;
    steps, t := RemovedBoth();
    ReleaseA();
    BelowA();
    steps, t := Advance(steps, t, LastRef(2));
    assert ["..", "x"][..1] == [".."];
    assert PathTo(t.nodes, 2, [".."][1..], 2);
    assert Holds(t.nodes[3].entries, [".."][0], 1);
    assert PathTo(t.nodes, 3, [".."], 2);
  }

  lemma BelowA()
    ensures 2 in WithoutA() && WithoutA()[2].nlink == 0 && 3 in Below(WithoutA(), 2)
  {
  }

  /** and when its number is used again, ".." leads to an unrelated file. */
  lemma ParentReplaced() returns (steps: seq<Action>, t: State)
    ensures Leads(Init(), steps, t) && 3 in t.nodes && Holds(t.nodes[3].entries, "..", 1) && Up(t.nodes[3]) == 2
    ensures 2 in t.nodes && t.nodes[2].kind == File && Used(t.nodes, 3, 1) && !LeadsHome(t, 3, 1)
  {
    hide Leads, OnlyB, Created, CanCreate;
    steps, t := ParentGone();
    MakeC();
    TopIsLinked();
    steps, t := Advance(steps, t, AddNode(1, 2, "c", 2, File));
    CIsThere();
    NameLeadsHomeExactly(steps, t, 3, "..", 1);
  }

  lemma TopIsLinked()
    ensures 1 in OnlyB() && LinkedDir(OnlyB()[1])
  {
  }

  lemma CIsThere()
    ensures 3 in WithC() && WithC()[3] == Node(Dir, 0, B) && 2 in WithC() && WithC()[2].kind == File
  {
  }
}
