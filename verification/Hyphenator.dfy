/** The pattern tree of agent/livekit/agents/tokenize/_basic_hyphenator.py and the walks through it. */
module Hyphenator {
  import opened Wrappers
  import opened Subsequences
  import opened HyphenPatterns
  import opened HyphenPieces

  /** What is known of `str.lower`: it never shortens, though it may lengthen, as it does U+0130. */
  ghost predicate Lowers(lower: string -> string) {
    forall s :: |lower(s)| >= |s|
  }

  /** The characters a pattern may hold; on any other `int` raises. */
  predicate Readable(pattern: string) {
    forall i :: 0 <= i < |pattern| ==> IsDigit(pattern[i]) || IsLetter(pattern[i]) || pattern[i] == '.'
  }

  predicate AllReadable(patterns: seq<string>) {
    patterns == [] || (AllReadable(DropLast(patterns)) && Readable(Last(patterns)))
  }

  lemma OneMorePattern(patterns: seq<string>, i: nat)
    requires i < |patterns|
    ensures TableOf(patterns[..i + 1]) == TableOf(patterns[..i])[Letters(patterns[i]) := Points(patterns[i])]
    ensures AllReadable(patterns[..i + 1]) <==> AllReadable(patterns[..i]) && Readable(patterns[i])
  {
    assert DropLast(patterns[..i + 1]) == patterns[..i];
  }

  /** A pattern that cannot be read spoils the list. */
  lemma {:induction false} Unreadable(patterns: seq<string>, i: nat)
    requires i <= |patterns| && !AllReadable(patterns[..i])
    ensures !AllReadable(patterns)
  {
    if i == |patterns| {
      assert patterns[..i] == patterns;
    } else {
      assert DropLast(patterns)[..i] == patterns[..i];
      Unreadable(DropLast(patterns), i);
    }
  }

  /** The exception entries by their letters; a later entry with the same letters wins. */
  function EntriesOf(exceptions: seq<string>): map<string, string> {
    if exceptions == [] then map[]
    else EntriesOf(DropLast(exceptions))[Key(Last(exceptions)) := Last(exceptions)]
  }

  /** The marks of `work`, a word between two dots: the best values, none next to its ends. */
  function PatternMarks(table: map<string, seq<nat>>, work: string): (r: seq<nat>)
    requires |work| >= 2
    ensures |r| == |work| - 1
  {
    seq(|work| - 1, k requires 0 <= k < |work| - 1 =>
      if k == 0 || k == |work| - 3 || k == |work| - 4 then 0 else Best(table, work, k + 2))
  }

  function Dotted(s: string): string {
    "." + s + "."
  }

  /** The mark behind every letter of a word: its entry's, or those of the patterns. */
  function MarksFor(lower: string -> string, table: map<string, seq<nat>>, entries: map<string, string>,
                    word: string): seq<nat> {
    var key := lower(word);
    if key in entries then EntryMarks(entries[key]) else PatternMarks(table, Dotted(key))
  }

  function Hyphenated(lower: string -> string, table: map<string, seq<nat>>, entries: map<string, string>,
                      word: string): seq<string> {
    if |word| <= 4 then [word]
    else
      var marks := MarksFor(lower, table, entries, word);
      Pieces(word, marks, Min(|word|, |marks|))
  }

  /** One level of the nested dictionaries; `points` is what is stored under the key `None`. */
  class TreeNode {
    var children: map<char, TreeNode>
    var points: Option<seq<nat>>

    constructor ()
      ensures children == map[] && points == None
    {
      children, points := map[], None;
    }
  }

  class Hyphenator {
    const tree: TreeNode
    const lower: string -> string
    var exceptions: map<string, seq<nat>>
    ghost var nodes: map<string, TreeNode>
    ghost var table: map<string, seq<nat>>
    ghost var entries: map<string, string>

    /** The node at `path` has a child for `c` just when there is a node one step further, and holds its table entry. */
    ghost predicate NodeFits(path: string)
      requires path in nodes
      reads `nodes, `table, nodes[path]
    {
      && (forall c :: c in nodes[path].children <==> path + [c] in nodes)
      && (forall c :: c in nodes[path].children ==> path + [c] in nodes && nodes[path].children[c] == nodes[path + [c]])
      && nodes[path].points == (if path in table then Some(table[path]) else None)
    }

    ghost predicate Valid()
      reads `nodes, `table, nodes.Values
    {
      && "" in nodes && nodes[""] == tree
      && (forall path :: path in nodes && path != "" ==> DropLast(path) in nodes)
      && (forall p, q :: p in nodes && q in nodes && p != q ==> nodes[p] != nodes[q])
      && (forall path :: path in nodes ==> NodeFits(path))
      && table.Keys <= nodes.Keys
      && WellFormed(table)
    }

    /** The exception index holds every entry's points. */
    ghost predicate Listed()
      reads `exceptions, `entries
    {
      && exceptions.Keys == entries.Keys
      && forall key :: key in entries ==> exceptions[key] == EntryPoints(entries[key])
    }

    constructor (lower: string -> string)
      ensures Valid() && Listed() && fresh(nodes.Values) && this.lower == lower
      ensures table == map[] && entries == map[]
    {
      tree := new TreeNode();
      this.lower := lower;
      this.exceptions := map[];
      nodes, table, entries := map[], map[], map[];
      new;
      nodes := map["" := tree];
    }

    /** `__init__`; `ok` is false when it raises. */
    method Init(patterns: seq<string>, exceptions: seq<string>) returns (ok: bool)
      requires Valid() && Listed() && table == map[] && entries == map[]
      modifies `nodes, `table, nodes.Values, `exceptions, `entries
      ensures Valid() && Listed() && fresh(nodes.Values - old(nodes.Values))
      ensures ok == AllReadable(patterns)
      ensures ok ==> table == TableOf(patterns) && entries == EntriesOf(exceptions)
    {
      ok := InsertPatterns(patterns);
      if ok {
        AddExceptions(exceptions);
      }
    }

    method InsertPatterns(patterns: seq<string>) returns (ok: bool)
      requires Valid() && table == map[]
      modifies `nodes, `table, nodes.Values
      ensures Valid() && fresh(nodes.Values - old(nodes.Values))
      ensures ok == AllReadable(patterns)
      ensures ok ==> table == TableOf(patterns)
    {
      for i := 0 to |patterns|
        invariant Valid() && fresh(nodes.Values - old(nodes.Values))
        invariant table == TableOf(patterns[..i]) && AllReadable(patterns[..i])
      {
        OneMorePattern(patterns, i);
        ok := InsertPattern(patterns[i]);
        if !ok {
          Unreadable(patterns, i + 1);
          return;
        }
      }
      assert patterns[..|patterns|] == patterns;
      ok := true;
    }

    method AddExceptions(list: seq<string>)
      requires Listed() && entries == map[]
      modifies `exceptions, `entries
      ensures Listed() && entries == EntriesOf(list)
    {
      for i := 0 to |list|
        invariant Listed() && entries == EntriesOf(list[..i])
      {
        assert DropLast(list[..i + 1]) == list[..i];
        exceptions := exceptions[Key(list[i]) := EntryPoints(list[i])];
        entries := entries[Key(list[i]) := list[i]];
      }
      assert list[..|list|] == list;
    }

    /** `_insert_pattern`. */
    method InsertPattern(pattern: string) returns (ok: bool)
      requires Valid()
      modifies `nodes, `table, nodes.Values
      ensures Valid() && fresh(nodes.Values - old(nodes.Values))
      ensures ok == Readable(pattern)
      ensures table == if ok then old(table)[Letters(pattern) := Points(pattern)] else old(table)
    {
      if !Readable(pattern) {
        return false;
      }
      ok := true;
      var chars := Letters(pattern);
      var points := Points(pattern);
      var t := MakePath(chars);
      Store(t, chars, points);
    }

    /** The node at `chars`, with every missing node on the way made. */
    method MakePath(chars: string) returns (t: TreeNode)
      requires Valid()
      modifies `nodes, nodes.Values
      ensures Valid() && fresh(nodes.Values - old(nodes.Values))
      ensures chars in nodes && nodes[chars] == t
    {
      t := tree;
      ghost var path := "";
      for i := 0 to |chars|
        invariant Valid() && fresh(nodes.Values - old(nodes.Values))
        invariant path == chars[..i] && path in nodes && nodes[path] == t
      {
        t := Descend(t, chars[i], path);
        path := path + [chars[i]];
        assert path == chars[..i + 1];
      }
      assert path == chars;
    }

    method Store(t: TreeNode, chars: string, points: seq<nat>)
      requires Valid() && chars in nodes && nodes[chars] == t && |points| == |chars| + 1
      modifies `table, t`points
      ensures Valid() && table == old(table)[chars := points]
    {
      t.points := Some(points);
      table := table[chars := points];
      forall q | q in nodes
        ensures NodeFits(q)
      {
        assert old(NodeFits(q));
      }
    }

    /** Going down one character, making the node when there is none. */
    method Descend(t: TreeNode, c: char, ghost path: string) returns (next: TreeNode)
      requires Valid() && path in nodes && nodes[path] == t
      modifies `nodes, t
      ensures Valid() && path + [c] in nodes && nodes[path + [c]] == next
      ensures fresh(nodes.Values - old(nodes.Values))
    {
      assert NodeFits(path);
      if c !in t.children {
        Grow(t, c, path);
      }
      assert NodeFits(path);
      next := t.children[c];
    }

    method Grow(t: TreeNode, c: char, ghost path: string)
      requires Valid() && path in nodes && nodes[path] == t && c !in t.children
      modifies `nodes, t
      ensures Valid() && nodes.Keys == old(nodes).Keys + {path + [c]} && nodes[path] == t
      ensures fresh(nodes.Values - old(nodes.Values))
    {
      ghost var longer := path + [c];
      assert NodeFits(path);
      NothingDeeper(path, c);
      var made := new TreeNode();
      t.children := t.children[c := made];
      nodes := nodes[longer := made];
      assert DropLast(longer) == path;
      forall q | q in nodes
        ensures NodeFits(q)
      {
        if q != longer {
          assert old(NodeFits(q));
          OnlyParent(q, path, c);
        }
      }
    }

    /** `hyphenate_word`. */
    method HyphenateWord(word: string) returns (pieces: seq<string>)
      requires Valid() && Listed() && Lowers(lower)
      ensures pieces == Hyphenated(lower, table, entries, word)
    {
      if |word| <= 4 {
        return [word];
      }
      var key := lower(word);
      var marks: seq<nat>;
      if key in exceptions {
        marks := exceptions[key][2..];
      } else {
        marks := PatternPoints(Dotted(key));
      }
      pieces := Cut(word, marks);
    }

    /** The points of a dotted word, those next to its ends cleared, from index 2 on. */
    method PatternPoints(work: string) returns (marks: seq<nat>)
      requires Valid() && |work| >= 4
      ensures marks == PatternMarks(table, work)
    {
      var points := new nat[|work| + 1](_ => 0);
      for i := 0 to |work|
        invariant Valid() && PointsAre(points, table, work, i, 0)
      {
        WalkFrom(work, i, points);
      }
      forall m | 0 <= m <= |work|
        ensures points[m] == Best(table, work, m)
      {
      }
      marks := ClearEnds(points, table, work);
    }

    /** The walk from offset `i` has come `n` characters down, to node `t`. */
    ghost predicate StandsAt(t: TreeNode?, work: string, i: nat, n: nat)
      requires i + n <= |work|
      reads `nodes
    {
      Window(work, i, n) in nodes && nodes[Window(work, i, n)] == t
    }

    /** The stored patterns starting at offset `i`, met on the way down, raise the points. */
    method WalkFrom(work: string, i: nat, points: array<nat>)
      requires Valid() && i < |work|
      requires PointsAre(points, table, work, i, 0)
      modifies points
      ensures PointsAre(points, table, work, i + 1, 0)
    {
      var t: TreeNode? := tree;
      var n := 0;
      assert Window(work, i, 0) == "";
      while n < |work| - i
        invariant 0 <= n <= |work| - i && StandsAt(t, work, i, n)
        invariant PointsAre(points, table, work, i, n)
      {
        t := WalkStep(t, work, i, n, points);
        if t == null {
          WalkStops(points, work, i, n);
          return;
        }
        n := n + 1;
      }
      OffsetDone(points, table, work, i);
    }

    /** One character down, raising the points found there; null where the tree ends. */
    method WalkStep(t: TreeNode, work: string, i: nat, n: nat, points: array<nat>) returns (next: TreeNode?)
      requires Valid() && i + n < |work| && StandsAt(t, work, i, n)
      requires PointsAre(points, table, work, i, n)
      modifies points
      ensures next == null ==> Window(work, i, n + 1) !in nodes && PointsAre(points, table, work, i, n)
      ensures next != null ==> StandsAt(next, work, i, n + 1) && PointsAre(points, table, work, i, n + 1)
    {
      var c := work[i + n];
      ghost var path := Window(work, i, n);
      ghost var longer := Window(work, i, n + 1);
      assert longer == path + [c];
      assert NodeFits(path);
      if c !in t.children {
        return null;
      }
      next := t.children[c];
      assert NodeFits(longer);
      if next.points.Some? {
        RaisePoints(points, next.points.value, i);
      }
    }

    /** Behind a missing node there is no pattern. */
    lemma {:induction false} DeadEnd(work: string, i: nat, n: nat, to: nat)
      requires Valid() && n < to && i + to <= |work| && Window(work, i, n + 1) !in nodes
      ensures forall k :: n < k <= to ==> Window(work, i, k) !in nodes
      ensures forall k :: n < k <= to ==> Window(work, i, k) !in table
    {
      if n + 1 < to {
        DeadEnd(work, i, n, to - 1);
        assert DropLast(Window(work, i, to)) == Window(work, i, to - 1);
      }
    }

    /** Where the tree ends the offset is done. */
    lemma WalkStops(points: array<nat>, work: string, i: nat, n: nat)
      requires Valid() && i + n < |work| && Window(work, i, n + 1) !in nodes && PointsAre(points, table, work, i, n)
      ensures PointsAre(points, table, work, i + 1, 0)
    {
      DeadEnd(work, i, n, |work| - i);
      PointsStay(points, table, work, i, n, |work| - i);
      OffsetDone(points, table, work, i);
    }

    static method RaisePoints(points: array<nat>, p: seq<nat>, i: nat)
      requires i + |p| <= points.Length
      modifies points
      ensures forall m :: 0 <= m < points.Length ==>
                points[m] == if i <= m < i + |p| then Max(old(points[m]), p[m - i]) else old(points[m])
    {
      for j := 0 to |p|
        invariant forall m :: 0 <= m < points.Length ==>
                    points[m] == if i <= m < i + j then Max(old(points[m]), p[m - i]) else old(points[m])
      {
        points[i + j] := Max(points[i + j], p[j]);
      }
    }

    /** Nothing lies behind a node that is not there. */
    lemma NothingDeeper(path: string, c: char)
      requires Valid() && path + [c] !in nodes
      ensures forall d :: path + [c] + [d] !in nodes
      ensures path + [c] !in table
    {
      forall d
        ensures path + [c] + [d] !in nodes
      {
        assert DropLast(path + [c] + [d]) == path + [c];
      }
    }
  }

  /** The points once every offset before `i`, and at `i` every match of at most `n` characters, is taken in. */
  ghost predicate PointsAre(points: array<nat>, table: map<string, seq<nat>>, work: string, i: nat, n: nat)
    requires i + n <= |work|
    reads points
  {
    && points.Length == |work| + 1
    && forall m :: 0 <= m <= |work| ==> points[m] == Max(BestBefore(table, work, i, m), BestFrom(table, work, i, n, m))
  }

  lemma PointsStay(points: array<nat>, table: map<string, seq<nat>>, work: string, i: nat, n: nat, to: nat)
    requires n <= to && i + to <= |work| && PointsAre(points, table, work, i, n)
    requires forall k :: n < k <= to ==> Window(work, i, k) !in table
    ensures PointsAre(points, table, work, i, to)
  {
    forall m | 0 <= m <= |work|
      ensures points[m] == Max(BestBefore(table, work, i, m), BestFrom(table, work, i, to, m))
    {
      NothingLonger(table, work, i, n, to, m);
    }
  }

  lemma OffsetDone(points: array<nat>, table: map<string, seq<nat>>, work: string, i: nat)
    requires i < |work| && PointsAre(points, table, work, i, |work| - i)
    ensures PointsAre(points, table, work, i + 1, 0)
  {
  }

  /** No hyphens behind the first letter or the last two: indices 1 and 2, and -2 and -3 of the points. */
  method ClearEnds(points: array<nat>, ghost table: map<string, seq<nat>>, ghost work: string) returns (marks: seq<nat>)
    requires |work| >= 4 && points.Length == |work| + 1
    requires forall m :: 0 <= m <= |work| ==> points[m] == Best(table, work, m)
    modifies points
    ensures marks == PatternMarks(table, work)
  {
    points[1], points[2] := 0, 0;
    points[points.Length - 2] := 0;
    points[points.Length - 3] := 0;
    marks := points[2..];
  }

  /** One step leads to `path + [c]` only from `path`, by `c`. */
  lemma OnlyParent(q: string, path: string, c: char)
    ensures forall d :: q + [d] == path + [c] ==> q == path && d == c
  {
    forall d | q + [d] == path + [c]
      ensures q == path && d == c
    {
      assert DropLast(q + [d]) == q && DropLast(path + [c]) == path;
      assert Last(q + [d]) == d && Last(path + [c]) == c;
    }
  }
}
