/** user/grep.c: the regular-expression matcher and the line-buffer loop. */
module Grep {

  // ----- What a pattern means -----

  /** One(c) is a literal or ".", Star(c) is c followed by "*", End is a final "$". */
  datatype Item = One(c: char) | Star(c: char) | End

  function Items(re: string): seq<Item> {
    if re == [] then []
    else if |re| >= 2 && re[1] == '*' then [Star(re[0])] + Items(re[2..])
    else if re == "$" then [End]
    else [One(re[0])] + Items(re[1..])
  }

  function Spell(item: Item): string {
    match item
    case One(c) => [c]
    case Star(c) => [c, '*']
    case End => "$"
  }

  function Spelling(items: seq<Item>): string {
    if items == [] then [] else Spell(items[0]) + Spelling(items[1..])
  }

  /** A "*" always belongs to the character before it, and a final "$" is the end of the text. */
  predicate Canonical(items: seq<Item>) {
    && (forall i :: 0 <= i < |items| && items[i] == End ==> i == |items| - 1)
    && (forall i, j :: 0 <= i < |items| - 1 && j == i + 1 && items[i].One? ==> Spell(items[j])[0] != '*')
    && (items != [] ==> items[|items| - 1] != One('$'))
  }

  lemma Prepended(item: Item, rest: seq<Item>)
    requires Canonical(rest) && item != End && (rest == [] ==> item != One('$'))
    requires item.One? && rest != [] ==> Spell(rest[0])[0] != '*'
    ensures Canonical([item] + rest) && Spelling([item] + rest) == Spell(item) + Spelling(rest)
  {
    var items := [item] + rest;
    assert items[1..] == rest && forall i :: 0 < i < |items| ==> items[i] == rest[i - 1];
  }

  lemma {:induction false} ItemsCanonical(re: string)
    ensures Canonical(Items(re)) && Spelling(Items(re)) == re
  {
    hide Canonical, Spelling;
    if re == [] || re == "$" {
      LastItems();
    } else if |re| >= 2 && re[1] == '*' {
      ItemsCanonical(re[2..]);
      Prepended(Star(re[0]), Items(re[2..]));
    } else {
      ItemsCanonical(re[1..]);
      StartsWith(Items(re[1..]));
      NoItems(re[1..]);
      Prepended(One(re[0]), Items(re[1..]));
    }
  }

  lemma LastItems()
    ensures Canonical([]) && Spelling([]) == [] && Canonical([End]) && Spelling([End]) == "$"
  {
    assert [End][1..] == [];
  }

  lemma NoItems(re: string)
    ensures Items(re) == [] <==> re == []
  {
  }

  lemma StartsWith(items: seq<Item>)
    ensures items != [] ==> Spelling(items) != [] && Spelling(items)[0] == Spell(items[0])[0]
  {
  }

  lemma {:induction false} CanonicalUnique(items: seq<Item>)
    requires Canonical(items)
    ensures Items(Spelling(items)) == items
    decreases |items|
  {
    if items != [] {
      var rest := items[1..];
      assert forall i :: 0 <= i < |rest| ==> rest[i] == items[i + 1];
      CanonicalUnique(rest);
      StartsWith(rest);
      var re := Spelling(items);
      assert re == Spell(items[0]) + Spelling(rest);
      if items[0].End? {
        assert rest == [];
      } else {
        assert re[|Spell(items[0])|..] == Spelling(rest);
      }
    }
  }

  /** Items reads an expression in the one way that spells it and lets "*" and the final "$" be operators. */
  lemma ItemsExactly(re: string, items: seq<Item>)
    ensures items == Items(re) <==> Canonical(items) && Spelling(items) == re
  {
    ItemsCanonical(re);
    if Canonical(items) {
      CanonicalUnique(items);
    }
  }

  predicate Fits(c: char, d: char) { c == '.' || c == d }

  /** The texts one item stands for; atEnd says that nothing follows the piece. */
  predicate Piece(item: Item, piece: string, atEnd: bool) {
    match item
    case One(c) => |piece| == 1 && Fits(c, piece[0])
    case Star(c) => forall i :: 0 <= i < |piece| ==> Fits(c, piece[i])
    case End => piece == [] && atEnd
  }

  /** cut[i] .. cut[i+1] is the part of the text that item i stands for. */
  ghost predicate IsCut(items: seq<Item>, text: string, cut: seq<nat>) {
    && |cut| == |items| + 1 && cut[0] == 0
    && (forall i :: 0 <= i < |cut| ==> cut[i] <= |text|)
    && (forall i, j :: 0 <= i < |items| && j == i + 1 ==>
          cut[i] <= cut[j] && Piece(items[i], text[cut[i]..cut[j]], cut[j] == |text|))
  }

  /** A prefix of the text can be cut into pieces, one per item. */
  ghost predicate Accepts(items: seq<Item>, text: string) {
    exists cut :: IsCut(items, text, cut)
  }

  /** The pattern occurs in the text, at its start if the pattern begins with "^". */
  ghost predicate Selects(re: string, text: string) {
    if re != [] && re[0] == '^' then Accepts(Items(re[1..]), text)
    else exists i :: 0 <= i <= |text| && Accepts(Items(re), text[i..])
  }

  // ----- Accepts, one item at a time -----

  lemma AcceptsNone(text: string)
    ensures Accepts([], text)
  {
    assert IsCut([], text, [0]);
  }

  lemma SliceOfRest(text: string, k: nat, a: nat, b: nat)
    requires a <= b && k + b <= |text|
    ensures text[k..][a..b] == text[a + k..b + k]
  {
  }

  lemma AcceptsHead(item: Item, rest: seq<Item>, text: string, k: nat)
    requires k <= |text| && Piece(item, text[..k], k == |text|) && Accepts(rest, text[k..])
    ensures Accepts([item] + rest, text)
  {
    hide Piece;
    var cut :| IsCut(rest, text[k..], cut);
    var all: seq<nat> := [0] + seq(|cut|, i requires 0 <= i < |cut| => cut[i] + k);
    var items := [item] + rest;
    forall i, j | 0 <= i < |items| && j == i + 1
      ensures all[i] <= all[j] && Piece(items[i], text[all[i]..all[j]], all[j] == |text|)
    {
      if i > 0 {
        var a, b := cut[i - 1], cut[j - 1];
        assert a <= b && all[i] == a + k && all[j] == b + k && items[i] == rest[i - 1];
        SliceOfRest(text, k, a, b);
      }
    }
    assert IsCut(items, text, all);
  }

  lemma AcceptsSplit(item: Item, rest: seq<Item>, text: string) returns (k: nat)
    requires Accepts([item] + rest, text)
    ensures k <= |text| && Piece(item, text[..k], k == |text|) && Accepts(rest, text[k..])
  {
    hide Piece;
    var items := [item] + rest;
    var cut :| IsCut(items, text, cut);
    k := cut[1];
    CutsRise(items, text, cut, 1);
    assert text[cut[0]..cut[1]] == text[..k] && items[0] == item;
    var tail: seq<nat> := seq(|rest| + 1, i requires 0 <= i <= |rest| => cut[i + 1] - k);
    forall i, j | 0 <= i < |rest| && j == i + 1
      ensures tail[i] <= tail[j] && Piece(rest[i], text[k..][tail[i]..tail[j]], tail[j] == |text[k..]|)
    {
      var a, b := cut[i + 1], cut[j + 1];
      assert items[i + 1] == rest[i] && k <= a <= b && tail[i] == a - k && tail[j] == b - k;
      SliceOfRest(text, k, a - k, b - k);
    }
    assert IsCut(rest, text[k..], tail);
  }

  lemma {:induction false} CutsRise(items: seq<Item>, text: string, cut: seq<nat>, i: nat)
    requires IsCut(items, text, cut) && i < |cut|
    ensures forall j :: i <= j < |cut| ==> cut[i] <= cut[j]
    decreases |cut| - i
  {
    if i + 1 < |cut| {
      CutsRise(items, text, cut, i + 1);
      assert cut[i] <= cut[i + 1];
    }
  }

  lemma AcceptsOne(c: char, rest: seq<Item>, text: string)
    ensures Accepts([One(c)] + rest, text) <==> text != [] && Fits(c, text[0]) && Accepts(rest, text[1..])
  {
    if Accepts([One(c)] + rest, text) {
      var k := AcceptsSplit(One(c), rest, text);
    }
    if text != [] && Fits(c, text[0]) && Accepts(rest, text[1..]) {
      AcceptsHead(One(c), rest, text, 1);
    }
  }

  lemma AcceptsEnd(text: string)
    ensures Accepts([End], text) <==> text == []
  {
    if Accepts([End], text) {
      assert [End] + [] == [End];
      var k := AcceptsSplit(End, [], text);
    }
    if text == [] {
      AcceptsNone(text);
      assert text[0..] == text && text[..0] == [];
      AcceptsHead(End, [], text, 0);
      assert [End] + [] == [End];
    }
  }

  /** c*rest accepts a text if rest accepts it after some run of characters that fit c. */
  lemma AcceptsStar(c: char, rest: seq<Item>, text: string)
    ensures Accepts([Star(c)] + rest, text) <==>
              exists k :: 0 <= k <= |text| && Run(c, text, k) && Accepts(rest, text[k..])
  {
    if Accepts([Star(c)] + rest, text) {
      var k := AcceptsSplit(Star(c), rest, text);
      assert forall i :: 0 <= i < k ==> text[i] == text[..k][i];
      assert Run(c, text, k);
    }
    if k :| 0 <= k <= |text| && Run(c, text, k) && Accepts(rest, text[k..]) {
      AcceptsHead(Star(c), rest, text, k);
    }
  }

  predicate Run(c: char, text: string, k: int) {
    0 <= k <= |text| && forall i :: 0 <= i < k ==> Fits(c, text[i])
  }

  // ----- The matcher -----

  /** match: an occurrence anywhere, or at the start after "^". */
  method Match(re: string, text: string) returns (found: bool)
    ensures found <==> Selects(re, text)
  {
    if re != [] && re[0] == '^' {
      found := MatchHere(re[1..], text);
      return;
    }
    var t := 0;
    while true
      invariant 0 <= t <= |text|
      invariant forall i :: 0 <= i < t ==> !Accepts(Items(re), text[i..])
      decreases |text| - t
    {
      found := MatchHere(re, text[t..]);
      if found {
        return;
      }
      if t == |text| {
        break;
      }
      t := t + 1;
    }
    found := false;
  }

  method MatchHere(re: string, text: string) returns (found: bool)
    ensures found <==> Accepts(Items(re), text)
    decreases |re|, 1
  {
    if re == [] {
      AcceptsNone(text);
      return true;
    }
    if |re| >= 2 && re[1] == '*' {
      found := MatchStar(re[0], re[2..], text);
      return;
    }
    if re == "$" {
      AcceptsEnd(text);
      return text == [];
    }
    AcceptsOne(re[0], Items(re[1..]), text);
    if text != [] && (re[0] == '.' || re[0] == text[0]) {
      found := MatchHere(re[1..], text[1..]);
      return;
    }
    found := false;
  }

  /** matchstar tries the shortest run first. */
  method MatchStar(c: char, re: string, text: string) returns (found: bool)
    ensures found <==> Accepts([Star(c)] + Items(re), text)
    decreases |re| + 1, 0
  {
    AcceptsStar(c, Items(re), text);
    var t := 0;
    while true
      invariant 0 <= t <= |text| && Run(c, text, t)
      invariant forall i :: 0 <= i < t ==> !Accepts(Items(re), text[i..])
      decreases |text| - t
    {
      found := MatchHere(re, text[t..]);
      if found {
        return;
      }
      if t == |text| || !(text[t] == c || c == '.') {
        break;
      }
      t := t + 1;
    }
    assert forall k :: 0 <= k <= |text| && Run(c, text, k) ==> k <= t;
    found := false;
  }

  // ----- The line buffer -----

  const BUFSIZE: nat := 1024

  /** Index of the first newline, or the length of the text. */
  function Newline(text: string): (i: nat)
    ensures i <= |text|
    ensures i < |text| ==> text[i] == '\n'
    ensures forall j :: 0 <= j < i ==> text[j] != '\n'
  {
    if text == [] || text[0] == '\n' then 0 else 1 + Newline(text[1..])
  }

  /** What grep prints: the selected newline-terminated lines in order, up to the first line that
      does not fit, with its newline, in BUFSIZE - 1 bytes. */
  ghost function Selected(re: string, text: string): string
    decreases |text|
  {
    var i := Newline(text);
    if i == |text| || i + 1 > BUFSIZE - 1 then []
    else (if Selects(re, text[..i]) then text[..i + 1] else []) + Selected(re, text[i + 1..])
  }

  lemma NewlineAt(text: string, i: nat)
    requires i < |text| && text[i] == '\n' && forall j :: 0 <= j < i ==> text[j] != '\n'
    ensures Newline(text) == i
  {
  }

  /** A file descriptor: the bytes not yet read. */
  class Input {
    var rest: string

    constructor (data: string)
      ensures rest == data
    {
      rest := data;
    }

    /** read: up to max bytes into buf at m, at least one if there are any; how many is up to want. */
    method Read(buf: array<char>, m: nat, max: nat, want: nat) returns (n: nat)
      requires m + max <= buf.Length
      modifies this`rest, buf
      ensures n <= max && n <= |old(rest)| && rest == old(rest)[n..]
      ensures n == 0 <==> max == 0 || old(rest) == []
      ensures forall j :: 0 <= j < buf.Length ==> buf[j] == if m <= j < m + n then old(rest)[j - m] else old(buf[j])
    {
      n := if max < |rest| then max else |rest|;
      if 0 < want < n {
        n := want;
      }
      forall j | 0 <= j < n {
        buf[m + j] := rest[j];
      }
      rest := rest[n..];
    }
  }

  /** strchr(p, c) on the NUL-terminated string in buf at p; buf.Length stands for a null result. */
  method Strchr(buf: array<char>, p: nat, m: nat) returns (q: nat)
    requires p <= m < buf.Length && buf[m] == '\0' && forall j :: p <= j < m ==> buf[j] != '\0'
    ensures q == buf.Length || p <= q < m
    ensures q == buf.Length ==> '\n' !in buf[p..m]
    ensures q < m ==> buf[q] == '\n' && Newline(buf[p..m]) == q - p
  {
    q := p;
    while buf[q] != '\0'
      invariant p <= q <= m && forall j :: p <= j < q ==> buf[j] != '\n'
      decreases m - q
    {
      if buf[q] == '\n' {
        NewlineAt(buf[p..m], q - p);
        return;
      }
      q := q + 1;
    }
    q := buf.Length;
  }

  /** One line, buf[p..q]: terminate it in place, match it, print it with its newline if it is selected. */
  method TryLine(re: string, buf: array<char>, p: nat, q: nat, printed: string) returns (out: string)
    requires p <= q < buf.Length && buf[q] == '\n'
    modifies buf
    ensures out == printed + if Selects(re, old(buf[p..q])) then old(buf[p..q + 1]) else []
    ensures forall j :: 0 <= j < buf.Length && j != q ==> buf[j] == old(buf[j])
  {
    buf[q] := '\0';
    assert buf[p..q] == old(buf[p..q]);
    var hit := Match(re, buf[p..q]);
    out := printed;
    if hit {
      buf[q] := '\n';
      assert buf[p..q + 1] == old(buf[p..q + 1]);
      out := out + buf[p..q + 1];
    }
  }

  /** The loop over the lines in the buffer: prints the selected ones and returns where the
      unfinished line starts. */
  method PrintLines(re: string, buf: array<char>, m: nat, printed: string, ghost later: string)
    returns (p: nat, out: string)
    requires m < buf.Length == BUFSIZE && buf[m] == '\0' && forall j :: 0 <= j < m ==> buf[j] != '\0'
    modifies buf
    ensures p <= m && buf[p..m] == old(buf[p..m]) && '\n' !in buf[p..m]
    ensures out + Selected(re, buf[p..m] + later) == printed + Selected(re, old(buf[..m]) + later)
  {
    hide Selected, Selects, Newline;
    p, out := 0, printed;
    ghost var was := buf[..];
    var q := Strchr(buf, p, m);
    assert was[0..m] == old(buf[..m]);
    while q != buf.Length
      invariant 0 <= p <= m && forall j :: p <= j < BUFSIZE ==> buf[j] == was[j]
      invariant q == buf.Length || q < m
      invariant q == buf.Length ==> '\n' !in buf[p..m]
      invariant q < buf.Length ==> p <= q < m && buf[q] == '\n' && Newline(buf[p..m]) == q - p
      invariant out + Selected(re, was[p..m] + later) == printed + Selected(re, was[0..m] + later)
      decreases m - p
    {
      ghost var have := was[p..m];
      assert buf[p..m] == have && buf[p..q] == have[..q - p] && buf[p..q + 1] == have[..q - p + 1];
      SelectedStep(re, have, later, q - p);
      out := TryLine(re, buf, p, q, out);
      assert have[q - p + 1..] == was[q + 1..m];
      p := q + 1;
      q := Strchr(buf, p, m);
    }
    assert buf[p..m] == was[p..m];
  }

  lemma SelectedStep(re: string, have: string, later: string, i: nat)
    requires i < |have| && Newline(have) == i && i + 1 <= BUFSIZE - 1
    ensures Selected(re, have + later) ==
            (if Selects(re, have[..i]) then have[..i + 1] else []) + Selected(re, have[i + 1..] + later)
  {
    hide Selects, Newline;
    var text := have + later;
    assert forall j :: 0 <= j <= i ==> text[j] == have[j];
    NewlineAt(text, i);
    assert text[..i] == have[..i] && text[..i + 1] == have[..i + 1] && text[i + 1..] == have[i + 1..] + later;
  }

  /** With no newline in the buffered text nothing is printed once the input ends or the buffer is full. */
  lemma SelectedNothing(re: string, have: string, later: string)
    requires '\n' !in have && (later == [] || |have| >= BUFSIZE - 1)
    ensures Selected(re, have + later) == []
  {
  }

  /** memmove(buf, p, m - p) to the front of the buffer. */
  method Memmove(buf: array<char>, p: nat, m: nat) returns (k: nat)
    requires p <= m <= buf.Length
    modifies buf
    ensures k == m - p && buf[..k] == old(buf[p..m])
  {
    k := m - p;
    forall i | 0 <= i < k {
      buf[i] := buf[p + i];
    }
  }

  /** One round of grep's loop: a read, the lines it completed, and the unfinished line moved to the
      front.  done means that read returned 0. */
  method Round(re: string, buf: array<char>, m: nat, input: Input, want: nat, printed: string)
    returns (done: bool, k: nat, out: string)
    requires m < buf.Length == BUFSIZE && '\n' !in buf[..m] && '\0' !in buf[..m] && '\0' !in input.rest
    modifies buf, input
    ensures done <==> old(input.rest) == [] || m == BUFSIZE - 1
    ensures done ==> out == printed && Selected(re, old(buf[..m]) + old(input.rest)) == []
    ensures !done ==>
              && k < BUFSIZE && |input.rest| < |old(input.rest)|
              && '\n' !in buf[..k] && '\0' !in buf[..k] && '\0' !in input.rest
              && out + Selected(re, buf[..k] + input.rest) == printed + Selected(re, old(buf[..m]) + old(input.rest))
  {
    hide Selected, Selects, Newline;
    out, k := printed, m;
    ghost var had, rest := buf[..m], input.rest;
    var n := input.Read(buf, m, BUFSIZE - m - 1, want);
    done := n == 0;
    if done {
      SelectedNothing(re, had, rest);
      return;
    }
    k := m + n;
    buf[k] := '\0';
    assert buf[..k] == had + rest[..n];
    assert buf[..k] + input.rest == had + rest;
    var p;
    p, out := PrintLines(re, buf, k, out, input.rest);
    k := Memmove(buf, p, k);
  }

  /** grep prints exactly the selected lines, in order, for every way the input is split into reads. */
  method GrepInput(re: string, input: Input, wants: nat -> nat) returns (out: string)
    requires '\0' !in input.rest
    modifies input
    ensures out == Selected(re, old(input.rest))
  {
    hide Selected;
    var buf := new char[BUFSIZE];
    ghost var all := input.rest;
    var m, calls, done := 0, 0, false;
    out := [];
    assert buf[..m] + input.rest == all;
    while !done
      invariant fresh(buf) && buf.Length == BUFSIZE
      invariant done ==> out == Selected(re, all)
      invariant !done ==>
                  && 0 <= m < BUFSIZE && '\n' !in buf[..m] && '\0' !in buf[..m] && '\0' !in input.rest
                  && out + Selected(re, buf[..m] + input.rest) == Selected(re, all)
      decreases !done, |input.rest|
    {
      done, m, out := Round(re, buf, m, input, wants(calls), out);
      calls := calls + 1;
    }
  }

  // ----- Inputs whose lines all fit -----

  ghost predicate LinesFit(text: string)
    decreases |text|
  {
    var i := Newline(text);
    i == |text| || (i + 1 <= BUFSIZE - 1 && LinesFit(text[i + 1..]))
  }

  /** All newline-terminated lines, without their newlines. */
  ghost function Lines(text: string): seq<string>
    decreases |text|
  {
    var i := Newline(text);
    if i == |text| then [] else [text[..i]] + Lines(text[i + 1..])
  }

  ghost function Print(re: string, lines: seq<string>): string {
    if lines == [] then []
    else (if Selects(re, lines[0]) then lines[0] + ['\n'] else []) + Print(re, lines[1..])
  }

  /** When no line exceeds 1023 bytes including its newline, nothing is left out. */
  lemma {:induction false} SelectedIsAll(re: string, text: string)
    requires LinesFit(text)
    ensures Selected(re, text) == Print(re, Lines(text))
    decreases |text|
  {
    var i := Newline(text);
    if i < |text| {
      SelectedIsAll(re, text[i + 1..]);
      PrintStep(re, text, i);
    }
  }

  /** A longer line stops the output: the rest of the input is never printed. */
  lemma {:induction false} LongLineStops(re: string, before: string, line: string, after: string)
    requires LinesFit(before) && (before == [] || before[|before| - 1] == '\n')
    requires '\n' !in line && |line| >= BUFSIZE - 1
    ensures Selected(re, before + line + after) == Print(re, Lines(before))
    decreases |before|
  {
    if before == [] {
      assert before + line + after == line + after;
      SelectedNothing(re, line, after);
    } else {
      var i := Newline(before);
      assert before + line + after == before + (line + after);
      SelectedStep(re, before, line + after, i);
      LongLineStops(re, before[i + 1..], line, after);
      assert before[i + 1..] + line + after == before[i + 1..] + (line + after);
      PrintStep(re, before, i);
    }
  }

  lemma PrintStep(re: string, text: string, i: nat)
    requires i < |text| && Newline(text) == i
    ensures Print(re, Lines(text)) ==
            (if Selects(re, text[..i]) then text[..i + 1] else []) + Print(re, Lines(text[i + 1..]))
  {
  }
}
