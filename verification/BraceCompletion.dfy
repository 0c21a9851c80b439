// Folding a list of file names into one brace word (bracecomp.c), and the
// round trip: expanding the word gives the names back.

module BraceCompletion {
  import opened Options
  import opened Braces
  import opened BraceWords
  import opened BraceTrees
  import opened Quoting

  // ------------------------------------------------------- common prefixes

  function Lcp(a: string, b: string): (n: nat)
    ensures n <= |a| && n <= |b| && a[..n] == b[..n]
    ensures n < |a| && n < |b| ==> a[n] != b[n]
  {
    if a != [] && b != [] && a[0] == b[0] then
      var n := 1 + Lcp(a[1..], b[1..]);
      assert a[..n] == [a[0]] + a[1..][..n - 1] && b[..n] == [b[0]] + b[1..][..n - 1];
      n
    else 0
  }

  lemma {:induction false} LcpUnique(a: string, b: string, n: nat)
    requires n <= |a| && n <= |b| && a[..n] == b[..n]
    requires n < |a| && n < |b| ==> a[n] != b[n]
    ensures Lcp(a, b) == n
  {
    if n > 0 {
      assert a[0] == a[..n][0] && b[0] == b[..n][0];
      assert a[1..][..n - 1] == a[..n][1..] && b[1..][..n - 1] == b[..n][1..];
      LcpUnique(a[1..], b[1..], n - 1);
    }
  }

  method StringGcd(a: string, b: string) returns (i: nat)
    ensures i == Lcp(a, b)
  {
    i := 0;
    while i < |a| && i < |b|
      invariant i <= |a| && i <= |b| && a[..i] == b[..i]
    {
      if a[i] != b[i] { break; }
      assert a[..i + 1] == a[..i] + [a[i]] && b[..i + 1] == b[..i] + [b[i]];
      i := i + 1;
    }
    LcpUnique(a, b, i);
  }

  // Later names share less and less with an earlier one.
  predicate Grouped(names: seq<string>) {
    forall i, j, k :: 0 <= i < j < k < |names| ==> Lcp(names[i], names[k]) <= Lcp(names[i], names[j])
  }

  // strcmp.
  predicate StrcmpLe(a: string, b: string) {
    a == [] || (b != [] && (a[0] < b[0] || (a[0] == b[0] && StrcmpLe(a[1..], b[1..]))))
  }

  // _strcompare looks at the first characters as signed bytes.
  function FirstByte(s: string): int {
    if s == [] then 0 else if s[0] as int >= 128 then s[0] as int - 256 else s[0] as int
  }

  predicate CompareLe(a: string, b: string) {
    FirstByte(a) < FirstByte(b) || (FirstByte(a) == FirstByte(b) && StrcmpLe(a, b))
  }

  predicate CStrings(names: seq<string>) {
    forall i, k :: 0 <= i < |names| && 0 <= k < |names[i]| ==> 0 < names[i][k] as int < 256
  }

  lemma {:induction false} StrcmpBetween(a: string, b: string, c: string)
    requires StrcmpLe(a, b) && StrcmpLe(b, c)
    ensures Lcp(a, c) <= Lcp(a, b)
  {
    if Lcp(a, c) > 0 {
      StrcmpBetween(a[1..], b[1..], c[1..]);
    }
  }

  // strcmp orders by the first difference, as unsigned characters.
  lemma {:induction false} StrcmpIs(a: string, b: string)
    ensures var n := Lcp(a, b);
      StrcmpLe(a, b) <==> n == |a| || (n < |b| && a[n] as int < b[n] as int)
  {
    if a != [] && b != [] && a[0] == b[0] { StrcmpIs(a[1..], b[1..]); }
  }

  predicate HighFirst(s: string) { s != [] && 128 <= s[0] as int }

  // _strcompare puts strings that start with a byte of 128 or more before all
  // others, and is strcmp otherwise.
  lemma CompareIs(a: string, b: string)
    requires CStrings([a, b])
    ensures CompareLe(a, b) <==>
              if HighFirst(a) == HighFirst(b) then StrcmpLe(a, b) else HighFirst(a)
  {
    var names := [a, b];
    assert names[0] == a && names[1] == b;
    assert a != [] ==> 0 < names[0][0] as int < 256;
    assert b != [] ==> 0 < names[1][0] as int < 256;
  }

  predicate Sorted(names: seq<string>) {
    forall i, j :: 0 <= i < j < |names| ==> CompareLe(names[i], names[j])
  }

  // Names sorted pairwise are grouped, whether by strcmp or by _strcompare.
  lemma SortedIsGrouped(names: seq<string>)
    requires CStrings(names)
    requires
      || Sorted(names)
      || (forall i, j :: 0 <= i < j < |names| ==> StrcmpLe(names[i], names[j]))
    ensures Grouped(names)
  {
    hide StrcmpLe, Lcp;
    forall i, j, k | 0 <= i < j < k < |names|
      ensures Lcp(names[i], names[k]) <= Lcp(names[i], names[j])
    {
      if StrcmpLe(names[i], names[j]) && StrcmpLe(names[j], names[k]) {
        StrcmpBetween(names[i], names[j], names[k]);
      } else {
        LcpFirst(names[i], names[k]);
        assert FirstByte(names[i]) != FirstByte(names[k]);
      }
    }
  }

  lemma LcpFirst(a: string, b: string)
    ensures FirstByte(a) != FirstByte(b) ==> Lcp(a, b) == 0
  {
  }

  lemma {:induction false} StrcmpTotal(a: string, b: string)
    ensures StrcmpLe(a, b) || StrcmpLe(b, a)
  {
    if a != [] && b != [] && a[0] == b[0] {
      StrcmpTotal(a[1..], b[1..]);
    }
  }

  lemma {:induction false} StrcmpTransitive(a: string, b: string, c: string)
    requires StrcmpLe(a, b) && StrcmpLe(b, c)
    ensures StrcmpLe(a, c)
  {
    if a != [] && a[0] == b[0] == c[0] {
      StrcmpTransitive(a[1..], b[1..], c[1..]);
    }
  }

  function Inserted(name: string, names: seq<string>): (r: seq<string>)
    requires Sorted(names)
    ensures Sorted(r) && multiset(r) == multiset{name} + multiset(names)
  {
    if names == [] then [name]
    else if CompareLe(name, names[0]) then
      InFront(name, names);
      [name] + names
    else
      var rest := Inserted(name, names[1..]);
      assert names == [names[0]] + names[1..];
      StrcmpTotal(name, names[0]);
      FrontStays(name, names, rest);
      [names[0]] + rest
  }

  lemma InFront(name: string, names: seq<string>)
    requires Sorted(names) && names != [] && CompareLe(name, names[0])
    ensures Sorted([name] + names)
  {
    hide StrcmpLe;
    forall k | 0 <= k < |names|
      ensures CompareLe(name, names[k])
    {
      if k > 0 && StrcmpLe(name, names[0]) && StrcmpLe(names[0], names[k]) {
        StrcmpTransitive(name, names[0], names[k]);
      }
    }
  }

  lemma FrontStays(name: string, names: seq<string>, rest: seq<string>)
    requires Sorted(names) && names != [] && CompareLe(names[0], name)
    requires Sorted(rest) && multiset(rest) == multiset{name} + multiset(names[1..])
    ensures Sorted([names[0]] + rest)
  {
    hide CompareLe;
    forall k | 0 <= k < |rest|
      ensures CompareLe(names[0], rest[k])
    {
      assert rest[k] in multiset(rest);
      if rest[k] != name {
        assert rest[k] in names[1..];
      }
    }
  }

  // What qsort makes of the names.
  function SortedNames(names: seq<string>): (r: seq<string>)
    ensures Sorted(r) && multiset(r) == multiset(names)
  {
    if names == [] then []
    else
      assert names == [names[0]] + names[1..];
      Inserted(names[0], SortedNames(names[1..]))
  }

  lemma SortedStrings(names: seq<string>)
    requires CStrings(names)
    ensures CStrings(SortedNames(names))
  {
    var r := SortedNames(names);
    forall i | 0 <= i < |r|
      ensures forall k :: 0 <= k < |r[i]| ==> 0 < r[i][k] as int < 256
    {
      assert r[i] in multiset(r);
      assert r[i] in names;
    }
  }

  // ------------------------------------------------- the pieces of a group

  function Pieces(ws: seq<Word>): Amble
    requires ws != []
  {
    if |ws| == 1 then One(ws[0]) else More(ws[0], Pieces(ws[1..]))
  }

  // Every piece followed by a comma, as the loop leaves them in `result`.
  function Joined(ws: seq<Word>): string {
    if ws == [] then [] else Joined(ws[..|ws| - 1]) + Print(ws[|ws| - 1]) + ","
  }

  function Meanings(ws: seq<Word>): seq<string> {
    if ws == [] then [] else Meanings(ws[..|ws| - 1]) + Meaning(ws[|ws| - 1])
  }

  predicate AllWellFormed(ws: seq<Word>) { forall k :: 0 <= k < |ws| ==> WellFormed(ws[k]) }

  lemma {:induction false} PiecesPrint(ws: seq<Word>)
    requires ws != []
    ensures PrintAmble(Pieces(ws)) + "," == Joined(ws)
  {
    hide Print;
    if |ws| == 1 {
      assert ws[..0] == [];
    } else {
      PiecesPrint(ws[1..]);
      JoinedFront(ws);
    }
  }

  lemma {:induction false} JoinedFront(ws: seq<Word>)
    requires ws != []
    ensures Joined(ws) == Print(ws[0]) + "," + Joined(ws[1..])
  {
    hide Print;
    var n := |ws| - 1;
    if n == 0 {
      assert ws[..0] == [] && ws[1..] == [];
    } else {
      assert ws[..n][1..] == ws[1..][..n - 1];
      JoinedFront(ws[..n]);
    }
  }

  lemma {:induction false} PiecesMeaning(ws: seq<Word>)
    requires ws != []
    ensures Choices(Pieces(ws)) == Meanings(ws)
  {
    hide Meaning;
    if |ws| == 1 {
      assert ws[..0] == [];
    } else {
      PiecesMeaning(ws[1..]);
      MeaningsFront(ws);
    }
  }

  lemma {:induction false} MeaningsFront(ws: seq<Word>)
    requires ws != []
    ensures Meanings(ws) == Meaning(ws[0]) + Meanings(ws[1..])
  {
    hide Meaning;
    var n := |ws| - 1;
    if n == 0 {
      assert ws[..0] == [] && ws[1..] == [];
    } else {
      assert ws[..n][1..] == ws[1..][..n - 1];
      MeaningsFront(ws[..n]);
    }
  }

  lemma {:induction false} PiecesWellFormed(ws: seq<Word>)
    requires ws != [] && AllWellFormed(ws)
    ensures WellFormedAmble(Pieces(ws)) && !Pieces(ws).Range?
    ensures |ws| > 1 <==> Pieces(ws).More?
  {
    hide WellFormed;
    if |ws| > 1 { PiecesWellFormed(ws[1..]); }
  }

  function UnquoteAll(xs: seq<string>): (r: seq<string>)
    ensures |r| == |xs|
  {
    if xs == [] then [] else [Unquote(xs[0])] + UnquoteAll(xs[1..])
  }

  lemma {:induction false} UnquoteAllAppend(xs: seq<string>, ys: seq<string>)
    ensures UnquoteAll(xs + ys) == UnquoteAll(xs) + UnquoteAll(ys)
  {
    hide Unquote;
    if xs == [] {
      assert xs + ys == ys;
    } else {
      assert (xs + ys)[1..] == xs[1..] + ys;
      UnquoteAllAppend(xs[1..], ys);
    }
  }

  lemma {:induction false} UnquotePrefixed(s: string, xs: seq<string>)
    ensures UnquoteAll(Prefixed(Quote(s), xs)) == Prefixed(s, UnquoteAll(xs))
  {
    hide Unquote, Quote, Inert;
    if xs != [] {
      QuoteFacts(s);
      UnquoteAppend(Quote(s), xs[0]);
      UnquotePrefixed(s, xs[1..]);
      assert Prefixed(Quote(s), xs)[1..] == Prefixed(Quote(s), xs[1..]);
      assert UnquoteAll(xs)[1..] == UnquoteAll(xs[1..]);
    }
  }

  lemma QuoteFacts(s: string)
    ensures Inert(Quote(s)) && Paired(Quote(s)) && Unquote(Quote(s)) == s
  {
    hide QuoteFrom, Inert, Unquote, Paired;
    QuoteIsInert(s, true);
    QuoteIsPaired(s, true);
    UnquoteQuote(s, true);
  }

  // ------------------------------------------------- really_munge_braces

  // The names from lo to hi without their first g characters.
  function Suffixes(names: seq<string>, lo: nat, hi: nat, g: nat): (r: seq<string>)
    requires lo <= hi <= |names|
    requires forall k :: lo <= k < hi ==> g <= |names[k]|
    ensures |r| == hi - lo
    decreases hi - lo
  {
    if lo == hi then [] else [names[lo][g..]] + Suffixes(names, lo + 1, hi, g)
  }

  predicate SharePrefix(names: seq<string>, lo: nat, hi: nat, g: nat)
    requires lo <= hi <= |names|
  {
    && (lo < hi ==> g <= |names[lo]|)
    && forall k :: lo <= k < hi ==> g <= |names[k]| && names[k][..g] == names[lo][..g]
  }

  // The text the pieces make: followed by commas inside a group; at top level
  // a single piece stands alone and several are enclosed in braces.
  function MungedText(ws: seq<Word>, g: nat): string {
    if g > 0 || ws == [] then Joined(ws)
    else if |ws| == 1 then Print(ws[0])
    else "{" + PrintAmble(Pieces(ws)) + "}"
  }

  // Where the inner loop stops when it is at `end': behind the run of names
  // that share more than g characters with names[start].
  function RunEnd(names: seq<string>, start: nat, end: nat, hi: nat, g: nat): (r: nat)
    requires start < end <= hi <= |names|
    ensures end <= r <= hi
    ensures forall k :: end <= k < r ==> Lcp(names[start], names[k]) > g
    ensures r < hi ==> Lcp(names[start], names[r]) <= g
    decreases hi - end
  {
    if end < hi && Lcp(names[start], names[end]) > g then RunEnd(names, start, end + 1, hi, g) else end
  }

  // gcd after the inner loop: the prefix found last.
  function RunPrefix(names: seq<string>, start: nat, end: nat): (gcd: nat)
    requires start < end <= |names|
    ensures gcd <= |names[start]|
  {
    if end == start + 1 then |names[start]| else Lcp(names[start], names[end - 1])
  }

  method GroupEnd(names: seq<string>, start: nat, hi: nat, g: nat) returns (end: nat, gcd: nat)
    requires start < hi <= |names|
    ensures end == RunEnd(names, start, start + 1, hi, g) && gcd == RunPrefix(names, start, end)
    ensures start < end <= hi && (end > start + 1 ==> gcd > g)
  {
    hide Lcp;
    gcd := |names[start]|;
    end := start + 1;
    while end < hi
      invariant start < end <= hi && gcd == RunPrefix(names, start, end) && (end > start + 1 ==> gcd > g)
      invariant RunEnd(names, start, end, hi, g) == RunEnd(names, start, start + 1, hi, g)
    {
      var temp := StringGcd(names[start], names[end]);
      if temp <= g { break; }
      gcd := temp;
      end := end + 1;
    }
  }

  // The text left of names[lo], which bounds the recursion.
  function LeftOf(names: seq<string>, lo: nat, g: nat): nat {
    if lo < |names| && g <= |names[lo]| then |names[lo]| - g else 0
  }

  // The pieces that really_munge_braces makes of names lo..hi; None if it
  // reads past the end of a name.
  function Munged(names: seq<string>, lo: nat, hi: nat, g: nat): (r: Option<seq<Word>>)
    requires lo <= hi <= |names|
    ensures r.Some? && lo < hi ==> r.value != []
    decreases hi - lo, LeftOf(names, lo, g), 1
  {
    if lo == hi then Some([])
    else
      var end := RunEnd(names, lo, lo + 1, hi, g);
      Before(MungedPiece(names, lo, end, g), Munged(names, end, hi, g))
  }

  function Before(w: Option<Word>, rest: Option<seq<Word>>): (r: Option<seq<Word>>)
    ensures r.Some? ==> r.value != []
  {
    if w.Some? && rest.Some? then Some([w.value] + rest.value) else None
  }

  function Behind(ws: seq<Word>, rest: Option<seq<Word>>): Option<seq<Word>> {
    if rest.Some? then Some(ws + rest.value) else None
  }

  // One run: a single name, or a prefix with its group.
  function MungedPiece(names: seq<string>, start: nat, end: nat, g: nat): Option<Word>
    requires start < end <= |names| && (end > start + 1 ==> RunPrefix(names, start, end) > g)
    decreases end - start, LeftOf(names, start, g), 0
  {
    var gcd := RunPrefix(names, start, end);
    if end == start + 1 then if g <= gcd then Some(Text(Quote(names[start][g..]))) else None
    else
      match Munged(names, start, end, gcd)
      case None => None
      case Some(sub) => Some(GroupPiece(names[start][g..gcd], sub))
  }

  // In every run at every level, the common prefix found last is the smallest
  // one of the run.
  predicate Tidy(names: seq<string>, lo: nat, hi: nat, g: nat)
    requires lo <= hi <= |names|
    decreases hi - lo, LeftOf(names, lo, g), 1
  {
    lo == hi
    || var end := RunEnd(names, lo, lo + 1, hi, g);
       TidyRun(names, lo, end, g) && Tidy(names, end, hi, g)
  }

  predicate TidyRun(names: seq<string>, start: nat, end: nat, g: nat)
    requires start < end <= |names| && (end > start + 1 ==> RunPrefix(names, start, end) > g)
    decreases end - start, LeftOf(names, start, g), 0
  {
    end == start + 1
    || (LastIsSmallest(names, start, end) && Tidy(names, start, end, RunPrefix(names, start, end)))
  }

  predicate LastIsSmallest(names: seq<string>, start: nat, end: nat)
    requires start < end <= |names|
  {
    forall k :: start < k < end ==> Lcp(names[start], names[k]) >= Lcp(names[start], names[end - 1])
  }

  // Names that stand together are tidy.
  lemma {:induction false} GroupedIsTidy(names: seq<string>, lo: nat, hi: nat, g: nat)
    requires lo <= hi <= |names| && Grouped(names[lo..hi])
    ensures Tidy(names, lo, hi, g)
    decreases hi - lo, LeftOf(names, lo, g), 1
  {
    hide Lcp, Grouped;
    if lo < hi {
      var end := RunEnd(names, lo, lo + 1, hi, g);
      GroupedPart(names, lo, hi, lo, end);
      GroupedPart(names, lo, hi, end, hi);
      GroupedRun(names, lo, end, g);
      GroupedIsTidy(names, end, hi, g);
    }
  }

  lemma {:induction false} GroupedRun(names: seq<string>, start: nat, end: nat, g: nat)
    requires start < end <= |names| && (end > start + 1 ==> RunPrefix(names, start, end) > g)
    requires Grouped(names[start..end])
    ensures TidyRun(names, start, end, g)
    decreases end - start, LeftOf(names, start, g), 0
  {
    hide Lcp;
    if end > start + 1 {
      var view := names[start..end];
      forall k | start < k < end
        ensures Lcp(names[start], names[k]) >= Lcp(names[start], names[end - 1])
      {
        assert view[0] == names[start] && view[k - start] == names[k] && view[end - 1 - start] == names[end - 1];
      }
      GroupedIsTidy(names, start, end, RunPrefix(names, start, end));
    }
  }

  lemma GroupedPart(names: seq<string>, lo: nat, hi: nat, lo': nat, hi': nat)
    requires lo <= lo' <= hi' <= hi <= |names| && Grouped(names[lo..hi])
    ensures Grouped(names[lo'..hi'])
  {
    hide Lcp;
    var view, part := names[lo..hi], names[lo'..hi'];
    forall i, j, k | 0 <= i < j < k < |part|
      ensures Lcp(part[i], part[k]) <= Lcp(part[i], part[j])
    {
      var d := lo' - lo;
      assert part[i] == view[i + d] && part[j] == view[j + d] && part[k] == view[k + d];
    }
  }

  lemma {:induction false} SuffixesAppend(names: seq<string>, lo: nat, mid: nat, hi: nat, g: nat)
    requires lo <= mid <= hi <= |names|
    requires forall k :: lo <= k < hi ==> g <= |names[k]|
    ensures Suffixes(names, lo, hi, g) == Suffixes(names, lo, mid, g) + Suffixes(names, mid, hi, g)
    decreases mid - lo
  {
    if lo < mid { SuffixesAppend(names, lo + 1, mid, hi, g); }
  }

  lemma MeaningsSnoc(ws: seq<Word>, w: Word)
    ensures Meanings(ws + [w]) == Meanings(ws) + Meaning(w)
  {
    hide Meaning;
    assert (ws + [w])[..|ws|] == ws;
  }

  lemma JoinedSnoc(ws: seq<Word>, w: Word)
    ensures Joined(ws + [w]) == Joined(ws) + Print(w) + ","
  {
    hide Print;
    assert (ws + [w])[..|ws|] == ws;
  }

  // A name by itself.
  lemma OneName(names: seq<string>, start: nat, g: nat)
    requires start < |names| && g <= |names[start]|
    ensures var w := Text(Quote(names[start][g..]));
      WellFormed(w) && UnquoteAll(Meaning(w)) == Suffixes(names, start, start + 1, g)
  {
    hide Quote, Inert, Unquote;
    var q := Quote(names[start][g..]);
    QuoteFacts(names[start][g..]);
    assert [q][1..] == [];
  }

  // A common prefix and the pieces that follow it.
  function GroupPiece(prefix: string, sub: seq<Word>): Word
    requires sub != []
  {
    Group(Quote(prefix), Pieces(sub), Text(""))
  }

  lemma GroupMeaning(prefix: string, sub: seq<Word>)
    requires |sub| >= 2 && AllWellFormed(sub)
    ensures var w := GroupPiece(prefix, sub);
      WellFormed(w) && UnquoteAll(Meaning(w)) == Prefixed(prefix, UnquoteAll(Meanings(sub)))
  {
    hide Quote, Inert, Unquote, UnquoteAll, Product, Prefixed, Pieces, Choices, WellFormedAmble, WellFormed;
    QuoteFacts(prefix);
    EmptyInert();
    PiecesWellFormed(sub);
    PiecesMeaning(sub);
    ProductUnit(Product([Quote(prefix)], Meanings(sub)));
    ProductOne(Quote(prefix), Meanings(sub));
    UnquotePrefixed(prefix, Meanings(sub));
    GroupIsWellFormed(prefix, sub);
  }

  lemma GroupIsWellFormed(prefix: string, sub: seq<Word>)
    requires |sub| >= 2 && AllWellFormed(sub)
    ensures WellFormed(GroupPiece(prefix, sub))
  {
    hide Quote, Inert, Pieces, WellFormedAmble;
    QuoteFacts(prefix);
    EmptyInert();
    PiecesWellFormed(sub);
  }

  lemma {:induction false} PrefixSuffixes(names: seq<string>, lo: nat, hi: nat, g: nat, gcd: nat, prefix: string)
    requires lo <= hi <= |names| && g <= gcd
    requires forall k :: lo <= k < hi ==> gcd <= |names[k]| && names[k][g..gcd] == prefix
    ensures Prefixed(prefix, Suffixes(names, lo, hi, gcd)) == Suffixes(names, lo, hi, g)
    decreases hi - lo
  {
    if lo < hi {
      PrefixSuffixes(names, lo + 1, hi, g, gcd, prefix);
      assert names[lo][g..] == names[lo][g..gcd] + names[lo][gcd..];
      assert Suffixes(names, lo, hi, gcd)[1..] == Suffixes(names, lo + 1, hi, gcd);
    }
  }

  // The text of a group, as the loop assembles it: the recursive result ends
  // in a comma, which becomes the closing brace.
  lemma GroupText(prefix: string, sub: seq<Word>, subterm: string)
    requires sub != [] && subterm == Joined(sub)
    ensures subterm != []
    ensures Print(GroupPiece(prefix, sub)) == Quote(prefix) + "{" + subterm[|subterm| - 1 := '}']
  {
    hide Quote, Pieces, Joined, PrintAmble;
    PiecesPrint(sub);
    var body := PrintAmble(Pieces(sub));
    assert subterm == body + ",";
    assert subterm[|subterm| - 1 := '}'] == body + "}";
    assert Quote(prefix) + "{" + body + "}" + "" == Quote(prefix) + "{" + (body + "}");
  }

  // The text of the pieces.
  function MungedResult(names: seq<string>, lo: nat, hi: nat, g: nat): Option<string>
    requires lo <= hi <= |names|
  {
    match Munged(names, lo, hi, g)
    case None => None
    case Some(ws) => Some(MungedText(ws, g))
  }

  // Every piece is appended with a comma; at top level the last comma goes or
  // becomes a brace.
  method ReallyMungeBraces(names: seq<string>, lo: nat, hi: nat, g: nat) returns (r: Option<string>)
    requires lo < hi <= |names|
    ensures r == MungedResult(names, lo, hi, g)
    decreases hi - lo, LeftOf(names, lo, g), 1
  {
    hide Joined, Lcp, Pieces, Print, PrintAmble, Munged, MungedPiece, Behind, MungedText, RunEnd, RunPrefix;
    var result := "";
    ghost var ws: seq<Word> := [];
    var flag := false;
    var start := lo;
    JoinedNothing();
    NothingBehind(Munged(names, lo, hi, g));
    while start < hi
      invariant lo <= start <= hi
      invariant ws == [] <==> start == lo
      invariant Munged(names, lo, hi, g) == Behind(ws, Munged(names, start, hi, g))
      invariant flag <==> g == 0 && ws != [] && (start < hi || |ws| >= 2)
      invariant result == (if flag then "{" else "") + Joined(ws)
    {
      var end, gcd := GroupEnd(names, start, hi, g);
      if g == 0 && start == lo && end != hi {
        result := "{";
        flag := true;
      }
      var piece := MungeGroup(names, start, end, g, gcd);
      MungedStep(names, start, hi, g);
      if piece.None? {
        Stuck(ws);
        return None;
      }
      ghost var w := MungedPiece(names, start, end, g).value;
      JoinedSnoc(ws, w);
      Shifted(ws, w, Munged(names, end, hi, g));
      result := result + piece.value + ",";
      ws := ws + [w];
      start := end;
    }
    MungedNothing(names, hi, g);
    AllBehind(ws);
    InnerText(ws, g);
    if g == 0 {
      TopText(ws, flag, result);
      result := if flag then result[|result| - 1 := '}'] else result[..|result| - 1];
    }
    return Some(result);
  }

  lemma MungedStep(names: seq<string>, start: nat, hi: nat, g: nat)
    requires start < hi <= |names|
    ensures var end := RunEnd(names, start, start + 1, hi, g);
      Munged(names, start, hi, g) == Before(MungedPiece(names, start, end, g), Munged(names, end, hi, g))
  {
  }

  lemma NothingBehind(rest: Option<seq<Word>>)
    ensures Behind([], rest) == rest
  {
    if rest.Some? { assert [] + rest.value == rest.value; }
  }

  lemma AllBehind(ws: seq<Word>)
    ensures Behind(ws, Some([])) == Some(ws)
  {
    assert ws + [] == ws;
  }

  lemma MungedNothing(names: seq<string>, hi: nat, g: nat)
    requires hi <= |names|
    ensures Munged(names, hi, hi, g) == Some([])
  {
  }

  lemma Stuck(ws: seq<Word>)
    ensures Behind(ws, None) == None
  {
  }

  lemma InnerText(ws: seq<Word>, g: nat)
    ensures g > 0 ==> MungedText(ws, g) == Joined(ws) == "" + Joined(ws)
  {
    hide Joined;
  }

  lemma Shifted(ws: seq<Word>, w: Word, rest: Option<seq<Word>>)
    ensures Behind(ws, Before(Some(w), rest)) == Behind(ws + [w], rest)
  {
    if rest.Some? { assert ws + ([w] + rest.value) == ws + [w] + rest.value; }
  }

  // One turn of the loop: a single name, or a prefix with its group.
  method MungeGroup(names: seq<string>, start: nat, end: nat, g: nat, gcd: nat) returns (piece: Option<string>)
    requires start < end <= |names| && gcd == RunPrefix(names, start, end) && (end > start + 1 ==> gcd > g)
    ensures piece == match MungedPiece(names, start, end, g) { case None => None case Some(w) => Some(Print(w)) }
    decreases end - start, LeftOf(names, start, g), 0
  {
    hide Joined, Lcp, Pieces, PrintAmble, Quote;
    if end == start + 1 {
      if g > gcd { return None; }
      var subterm := ShBackslashQuote(names[start][g..]);
      return Some(subterm);
    } else {
      var prefix := ShBackslashQuote(names[start][g..gcd]);
      var subterm := ReallyMungeBraces(names, start, end, gcd);
      if subterm.None? { return None; }
      GroupText(names[start][g..gcd], Munged(names, start, end, gcd).value, subterm.value);
      return Some(prefix + "{" + subterm.value[|subterm.value| - 1 := '}']);
    }
  }

  lemma JoinedNothing()
    ensures "" + Joined([]) == ""
  {
  }

  lemma TopText(ws: seq<Word>, flag: bool, result: string)
    requires ws != [] && (flag <==> |ws| >= 2)
    requires result == (if flag then "{" else "") + Joined(ws)
    ensures result != []
    ensures MungedText(ws, 0) == if flag then result[|result| - 1 := '}'] else result[..|result| - 1]
  {
    hide Joined, Pieces, Print, PrintAmble;
    PiecesPrint(ws);
    var body := PrintAmble(Pieces(ws));
    if flag {
      assert result == "{" + (body + ",");
    } else {
      assert result == body + ",";
      OnePiece(ws);
    }
  }

  lemma OnePiece(ws: seq<Word>)
    requires |ws| == 1
    ensures PrintAmble(Pieces(ws)) == Print(ws[0])
  {
    hide Print;
  }

  // ---------------------------------------------------------- the round trip

  // The word that stands for the munged text.
  function TopWord(ws: seq<Word>): Word
    requires ws != []
  {
    if |ws| == 1 then ws[0] else Group("", Pieces(ws), Text(""))
  }

  lemma TopWordFacts(ws: seq<Word>)
    requires ws != [] && AllWellFormed(ws)
    ensures WellFormed(TopWord(ws)) && Print(TopWord(ws)) == MungedText(ws, 0)
    ensures Meaning(TopWord(ws)) == Meanings(ws)
  {
    hide Print, PrintAmble, Meaning, Choices, Pieces, WellFormedAmble, Inert;
    PiecesWellFormed(ws);
    PiecesMeaning(ws);
    EmptyInert();
    if |ws| == 1 {
      assert ws[..0] == [];
      MeaningsSnoc([], ws[0]);
      assert ws == [] + [ws[0]];
    } else {
      GroupOnly(Pieces(ws));
      BareGroup(Pieces(ws));
    }
  }

  lemma BareGroup(a: Amble)
    ensures Print(Group("", a, Text(""))) == "{" + PrintAmble(a) + "}"
  {
    hide PrintAmble;
    BracesOnly(PrintAmble(a));
  }

  // Two pieces at least, where the first and the last name have nothing more in
  // common.
  lemma TwoPieces(names: seq<string>, lo: nat, hi: nat, g: nat)
    requires lo + 2 <= hi <= |names| && Lcp(names[lo], names[hi - 1]) <= g && Munged(names, lo, hi, g).Some?
    ensures |Munged(names, lo, hi, g).value| >= 2
  {
    hide MungedPiece, Lcp;
    var end := RunEnd(names, lo, lo + 1, hi, g);
    assert end < hi;
    assert Munged(names, end, hi, g).value != [];
  }

  // Whatever the names are, the pieces are well-formed and expand to as many
  // strings as there are names.
  lemma {:induction false} MungedShape(names: seq<string>, lo: nat, hi: nat, g: nat)
    requires lo <= hi <= |names| && Munged(names, lo, hi, g).Some?
    ensures var ws := Munged(names, lo, hi, g).value;
      AllWellFormed(ws) && |Meanings(ws)| == hi - lo
    decreases hi - lo, LeftOf(names, lo, g), 1
  {
    hide WellFormed, Meaning, MungedPiece, Meanings, Lcp;
    if lo < hi {
      var end := RunEnd(names, lo, lo + 1, hi, g);
      var w, rest := MungedPiece(names, lo, end, g).value, Munged(names, end, hi, g).value;
      MungedShape(names, end, hi, g);
      PieceShape(names, lo, end, g);
      FirstPiece(w, rest);
    } else {
      NoMeanings();
    }
  }

  lemma NoMeanings()
    ensures Meanings([]) == []
  {
  }

  lemma FirstPiece(w: Word, rest: seq<Word>)
    ensures Meanings([w] + rest) == Meaning(w) + Meanings(rest)
  {
    MeaningsFront([w] + rest);
    assert ([w] + rest)[1..] == rest;
  }

  lemma {:induction false} PieceShape(names: seq<string>, start: nat, end: nat, g: nat)
    requires start < end <= |names| && (end > start + 1 ==> RunPrefix(names, start, end) > g)
    requires MungedPiece(names, start, end, g).Some?
    ensures var w := MungedPiece(names, start, end, g).value;
      WellFormed(w) && |Meaning(w)| == end - start
    decreases end - start, LeftOf(names, start, g), 0
  {
    hide Lcp, Munged, GroupPiece, Quote, Inert;
    var gcd := RunPrefix(names, start, end);
    if end == start + 1 {
      QuoteFacts(names[start][g..]);
    } else {
      var sub := Munged(names, start, end, gcd).value;
      MungedShape(names, start, end, gcd);
      TwoPieces(names, start, end, gcd);
      GroupMeaning(names[start][g..gcd], sub);
      hide Meaning;
      SameLength(names[start][g..gcd], Meaning(GroupPiece(names[start][g..gcd], sub)), Meanings(sub));
    }
  }

  lemma SameLength(prefix: string, xs: seq<string>, ys: seq<string>)
    requires UnquoteAll(xs) == Prefixed(prefix, UnquoteAll(ys))
    ensures |xs| == |ys|
  {
  }

  predicate Faithful(ws: Option<seq<Word>>, names: seq<string>, lo: nat, hi: nat, g: nat)
    requires lo <= hi <= |names| && SharePrefix(names, lo, hi, g)
  {
    ws.Some? && UnquoteAll(Meanings(ws.value)) == Suffixes(names, lo, hi, g)
  }

  predicate FaithfulPiece(w: Option<Word>, names: seq<string>, start: nat, end: nat, g: nat)
    requires start <= end <= |names| && SharePrefix(names, start, end, g)
  {
    w.Some? && UnquoteAll(Meaning(w.value)) == Suffixes(names, start, end, g)
  }

  // Names that share their first g characters come back if and only if they
  // are tidy.
  lemma {:induction false} FaithfulIffTidy(names: seq<string>, lo: nat, hi: nat, g: nat)
    requires lo <= hi <= |names| && SharePrefix(names, lo, hi, g)
    ensures Faithful(Munged(names, lo, hi, g), names, lo, hi, g) <==> Tidy(names, lo, hi, g)
    decreases hi - lo, LeftOf(names, lo, g), 1
  {
    hide Meaning, Meanings, MungedPiece, Lcp, UnquoteAll, Suffixes, TidyRun, SharePrefix;
    if lo == hi {
      NothingFaithful(names, lo, g);
    } else {
      var end := RunEnd(names, lo, lo + 1, hi, g);
      ShareParts(names, lo, end, hi, g);
      PieceIffTidy(names, lo, end, g);
      FaithfulIffTidy(names, end, hi, g);
      var p, r := MungedPiece(names, lo, end, g), Munged(names, end, hi, g);
      if p.Some? && r.Some? {
        FirstPiece(p.value, r.value);
        PieceShape(names, lo, end, g);
        UnquoteAllAppend(Meaning(p.value), Meanings(r.value));
        SuffixesAppend(names, lo, end, hi, g);
        Split(UnquoteAll(Meaning(p.value)), UnquoteAll(Meanings(r.value)),
              Suffixes(names, lo, end, g), Suffixes(names, end, hi, g));
      }
    }
  }

  lemma NothingFaithful(names: seq<string>, lo: nat, g: nat)
    requires lo <= |names| && SharePrefix(names, lo, lo, g)
    ensures Faithful(Munged(names, lo, lo, g), names, lo, lo, g) && Tidy(names, lo, lo, g)
  {
  }

  lemma Split(a: seq<string>, b: seq<string>, c: seq<string>, d: seq<string>)
    requires |a| == |c|
    ensures a + b == c + d <==> a == c && b == d
  {
    if a + b == c + d {
      assert a == (a + b)[..|a|] && c == (c + d)[..|a|];
      assert b == (a + b)[|a|..] && d == (c + d)[|a|..];
    }
  }

  lemma ShareParts(names: seq<string>, lo: nat, mid: nat, hi: nat, g: nat)
    requires lo <= mid <= hi <= |names| && SharePrefix(names, lo, hi, g)
    ensures SharePrefix(names, lo, mid, g) && SharePrefix(names, mid, hi, g)
    ensures forall k :: lo <= k < hi ==> g <= |names[k]|
  {
  }

  lemma {:induction false} PieceIffTidy(names: seq<string>, start: nat, end: nat, g: nat)
    requires start < end <= |names| && (end > start + 1 ==> RunPrefix(names, start, end) > g)
    requires SharePrefix(names, start, end, g)
    ensures FaithfulPiece(MungedPiece(names, start, end, g), names, start, end, g) <==> TidyRun(names, start, end, g)
    decreases end - start, LeftOf(names, start, g), 0
  {
    hide Lcp, Munged, GroupPiece, Quote, Inert, UnquoteAll, Suffixes, Meaning, Meanings, SharePrefix, LastIsSmallest;
    ShareParts(names, start, end, end, g);
    var gcd := RunPrefix(names, start, end);
    if end == start + 1 {
      OneName(names, start, g);
    } else {
      var prefix := names[start][g..gcd];
      if Munged(names, start, end, gcd).Some? {
        var sub := Munged(names, start, end, gcd).value;
        MungedShape(names, start, end, gcd);
        TwoPieces(names, start, end, gcd);
        GroupMeaning(prefix, sub);
        if Prefixed(prefix, UnquoteAll(Meanings(sub))) == Suffixes(names, start, end, g) {
          PrefixFound(names, start, end, g, gcd, prefix, UnquoteAll(Meanings(sub)));
          PrefixShared(names, start, end, g, gcd);
        }
      }
      if LastIsSmallest(names, start, end) {
        SmallestIsShared(names, start, end);
        FaithfulIffTidy(names, start, end, gcd);
        PrefixAt(names, start, end, g, gcd);
        PrefixSuffixes(names, start, end, g, gcd, prefix);
        if Munged(names, start, end, gcd).Some? {
          PrefixedInjective(prefix, UnquoteAll(Meanings(Munged(names, start, end, gcd).value)),
                            Suffixes(names, start, end, gcd));
        }
      }
    }
  }

  lemma SmallestIsShared(names: seq<string>, start: nat, end: nat)
    requires start + 1 < end <= |names| && LastIsSmallest(names, start, end)
    ensures SharePrefix(names, start, end, Lcp(names[start], names[end - 1]))
  {
    hide Lcp;
    var gcd := Lcp(names[start], names[end - 1]);
    forall k | start <= k < end
      ensures gcd <= |names[k]| && names[k][..gcd] == names[start][..gcd]
    {
      if k > start {
        var n := Lcp(names[start], names[k]);
        assert names[k][..gcd] == names[k][..n][..gcd] && names[start][..gcd] == names[start][..n][..gcd];
      }
    }
  }

  lemma PrefixAt(names: seq<string>, start: nat, end: nat, g: nat, gcd: nat)
    requires start < end <= |names| && g <= gcd && SharePrefix(names, start, end, gcd)
    ensures forall k :: start <= k < end ==> gcd <= |names[k]| && names[k][g..gcd] == names[start][g..gcd]
    ensures forall k :: start <= k < end ==> gcd <= |names[k]|
  {
    forall k | start <= k < end
      ensures names[k][g..gcd] == names[start][g..gcd]
    {
      assert names[k][g..gcd] == names[k][..gcd][g..] && names[start][g..gcd] == names[start][..gcd][g..];
    }
  }

  lemma {:induction false} PrefixedInjective(s: string, xs: seq<string>, ys: seq<string>)
    ensures Prefixed(s, xs) == Prefixed(s, ys) <==> xs == ys
    decreases |xs|
  {
    if Prefixed(s, xs) == Prefixed(s, ys) && xs != [] {
      var ps, qs := Prefixed(s, xs), Prefixed(s, ys);
      assert ps[0] == s + xs[0] && qs[0] == s + ys[0];
      assert xs[0] == ps[0][|s|..] && ys[0] == qs[0][|s|..];
      assert ps[1..] == Prefixed(s, xs[1..]) && qs[1..] == Prefixed(s, ys[1..]);
      PrefixedInjective(s, xs[1..], ys[1..]);
      assert xs == [xs[0]] + xs[1..] && ys == [ys[0]] + ys[1..];
    }
  }

  // If prefixing gives the names, each of them has that prefix.
  lemma {:induction false} PrefixFound(names: seq<string>, lo: nat, hi: nat, g: nat, gcd: nat, prefix: string,
                                       xs: seq<string>)
    requires lo <= hi <= |names| && g <= gcd && |prefix| == gcd - g
    requires forall k :: lo <= k < hi ==> g <= |names[k]|
    requires Prefixed(prefix, xs) == Suffixes(names, lo, hi, g)
    ensures forall k :: lo <= k < hi ==> gcd <= |names[k]| && names[k][g..gcd] == prefix
    decreases hi - lo
  {
    if lo < hi {
      var s := Suffixes(names, lo, hi, g);
      assert s[0] == names[lo][g..] && s[0] == prefix + xs[0];
      assert names[lo][g..gcd] == s[0][..gcd - g] == prefix;
      assert s[1..] == Suffixes(names, lo + 1, hi, g) && Prefixed(prefix, xs)[1..] == Prefixed(prefix, xs[1..]);
      PrefixFound(names, lo + 1, hi, g, gcd, prefix, xs[1..]);
    }
  }

  // Then what the names share is at least that much.
  lemma PrefixShared(names: seq<string>, start: nat, end: nat, g: nat, gcd: nat)
    requires start + 1 < end <= |names| && SharePrefix(names, start, end, g)
    requires g <= gcd == Lcp(names[start], names[end - 1])
    requires forall k :: start <= k < end ==> gcd <= |names[k]| && names[k][g..gcd] == names[start][g..gcd]
    ensures LastIsSmallest(names, start, end)
  {
    hide Lcp;
    forall k | start < k < end
      ensures Lcp(names[start], names[k]) >= gcd
    {
      assert names[k][..gcd] == names[k][..g] + names[k][g..gcd];
      assert names[start][..gcd] == names[start][..g] + names[start][g..gcd];
      LcpAtLeast(names[start], names[k], gcd);
    }
  }

  lemma {:induction false} LcpAtLeast(a: string, b: string, n: nat)
    requires n <= |a| && n <= |b| && a[..n] == b[..n]
    ensures Lcp(a, b) >= n
  {
    if n > 0 {
      assert a[0] == a[..n][0] && b[0] == b[..n][0];
      assert a[1..][..n - 1] == a[..n][1..] && b[1..][..n - 1] == b[..n][1..];
      LcpAtLeast(a[1..], b[1..], n - 1);
    }
  }

  // What a munged text expands to, once the comma that ends the text of a
  // group has become its closing brace.
  function Expansion(text: string, g: nat): seq<string> {
    UnquoteAll(Meaning(Parse(if g > 0 && text != [] then "{" + text[|text| - 1 := '}'] else text)))
  }

  // The text of the pieces is parsed as the pieces.
  lemma ExpansionOf(ws: seq<Word>, g: nat)
    requires ws != [] && AllWellFormed(ws) && (g > 0 ==> |ws| >= 2)
    ensures Expansion(MungedText(ws, g), g) == UnquoteAll(Meanings(ws))
  {
    hide Parse, Meaning, Meanings, UnquoteAll, WellFormed, Print, PrintAmble, Pieces, Joined;
    var text := MungedText(ws, g);
    TopWordFacts(ws);
    ParsePrint(TopWord(ws));
    if g > 0 {
      PiecesPrint(ws);
      assert "{" + text[|text| - 1 := '}'] == "{" + PrintAmble(Pieces(ws)) + "}";
    }
  }

  // The round trip, at every level: brace expansion of the munged text gives
  // the names back if and only if they are tidy.
  lemma RoundTripIffTidy(names: seq<string>, lo: nat, hi: nat, g: nat)
    requires lo < hi <= |names| && SharePrefix(names, lo, hi, g)
    requires g > 0 ==> lo + 2 <= hi && Lcp(names[lo], names[hi - 1]) <= g
    ensures forall k :: lo <= k < hi ==> g <= |names[k]|
    ensures var r := MungedResult(names, lo, hi, g);
      (r.Some? && Expansion(r.value, g) == Suffixes(names, lo, hi, g)) <==> Tidy(names, lo, hi, g)
  {
    hide Expansion, Lcp, Munged, Meanings, UnquoteAll, Suffixes, Tidy, MungedText, SharePrefix;
    ShareParts(names, lo, hi, hi, g);
    FaithfulIffTidy(names, lo, hi, g);
    if Munged(names, lo, hi, g).Some? {
      MungedShape(names, lo, hi, g);
      if g > 0 { TwoPieces(names, lo, hi, g); }
      ExpansionOf(Munged(names, lo, hi, g).value, g);
    }
  }

  // ---------------------------------------------------------- untidy names

  // Names in the order of a collation that ignores case at first.
  const Collated := ["abc", "aBd", "abe"]

  lemma CollatedPrefixes()
    ensures Lcp("abc", "aBd") == 1 && Lcp("abc", "abe") == 2 && Lcp("aBd", "abe") == 1
  {
    LcpUnique("abc", "aBd", 1);
    LcpUnique("abc", "abe", 2);
    LcpUnique("aBd", "abe", 1);
  }

  lemma CollatedRuns()
    ensures RunEnd(Collated, 0, 1, 3, 0) == 3 && RunEnd(Collated, 0, 1, 3, 2) == 1
    ensures RunEnd(Collated, 1, 2, 3, 2) == 2 && RunEnd(Collated, 2, 3, 3, 2) == 3
    ensures RunPrefix(Collated, 0, 3) == 2
  {
    hide Lcp;
    CollatedPrefixes();
    assert RunEnd(Collated, 0, 2, 3, 0) == 3;
  }

  lemma PlainLetter(s: string)
    requires |s| == 1 && !NeedsBackslash(s[0]) && s[0] != '#'
    ensures Quote(s) == s && Text(Quote(s)) == Text(s) && Unquote(s) == s
  {
    assert QuoteFrom(s[1..], false) == [];
    assert s[1..] == [];
  }

  // Inside the group the names are read from their third character on.
  lemma CollatedSuffixes()
    ensures Munged(Collated, 0, 3, 2) == Some([Text("c"), Text("d"), Text("e")])
  {
    hide Lcp, RunEnd, Quote, Munged;
    CollatedRuns();
    PlainLetter("c");
    PlainLetter("d");
    PlainLetter("e");
    assert "abc"[2..] == "c" && "aBd"[2..] == "d" && "abe"[2..] == "e";
    MungedNothing(Collated, 3, 2);
    MungedStep(Collated, 2, 3, 2);
    MungedStep(Collated, 1, 3, 2);
    MungedStep(Collated, 0, 3, 2);
    assert [Text("e")] + [] == [Text("e")];
    assert [Text("d")] + [Text("e")] == [Text("d"), Text("e")];
    assert [Text("c")] + [Text("d"), Text("e")] == [Text("c"), Text("d"), Text("e")];
  }

  lemma PlainPair()
    ensures Quote("ab") == "ab"
  {
    assert "ab"[1..] == "b" && "b"[1..] == "";
    assert QuoteFrom("b", false) == "b";
  }

  const CollatedPieces := [Text("c"), Text("d"), Text("e")]

  lemma CollatedWord()
    ensures Munged(Collated, 0, 3, 0) == Some([GroupPiece("ab", CollatedPieces)])
    ensures Print(GroupPiece("ab", CollatedPieces)) == "ab{c,d,e}"
  {
    hide Lcp, RunEnd, Quote, Munged;
    CollatedRuns();
    CollatedSuffixes();
    PlainPair();
    assert "abc"[0..2] == "ab";
    MungedNothing(Collated, 3, 0);
    MungedStep(Collated, 0, 3, 0);
    var piece := GroupPiece("ab", CollatedPieces);
    assert [piece] + [] == [piece];
    assert CollatedPieces[1..] == [Text("d"), Text("e")] && [Text("d"), Text("e")][1..] == [Text("e")];
    assert PrintAmble(Pieces(CollatedPieces)) == "c,d,e" by {
      assert PrintAmble(Pieces([Text("e")])) == "e";
      assert PrintAmble(Pieces([Text("d"), Text("e")])) == "d,e";
    }
  }

  // Sorted like this, as a locale may have them, aBd is lost and abd invented.
  lemma CollatedNamesAreLost()
    ensures MungedResult(Collated, 0, 3, 0) == Some("ab{c,d,e}")
    ensures Expansion("ab{c,d,e}", 0) == ["abc", "abd", "abe"] != Collated
    ensures !Tidy(Collated, 0, 3, 0)
  {
    hide Munged, Lcp, RunEnd, Tidy, Quote, Print, Expansion, Meanings, UnquoteAll, GroupPiece, AllWellFormed;
    CollatedWord();
    var piece := GroupPiece("ab", CollatedPieces);
    assert MungedText([piece], 0) == Print(piece);
    MungedShape(Collated, 0, 3, 0);
    ExpansionOf([piece], 0);
    CollatedExpansion();
    ShareNothing(Collated, 0);
    WholeSuffixes(Collated, 0);
    RoundTripIffTidy(Collated, 0, 3, 0);
    assert Collated[1] == "aBd" && ["abc", "abd", "abe"][1] == "abd";
    assert "aBd"[1] != "abd"[1];
  }

  lemma CollatedExpansion()
    ensures UnquoteAll(Meanings([GroupPiece("ab", CollatedPieces)])) == ["abc", "abd", "abe"]
  {
    hide Lcp, Quote, Meaning, GroupPiece, WellFormed, Munged, Prefixed, UnquoteAll;
    CollatedSuffixes();
    MungedShape(Collated, 0, 3, 2);
    GroupMeaning("ab", CollatedPieces);
    NoMeanings();
    MeaningsSnoc([], GroupPiece("ab", CollatedPieces));
    assert [] + [GroupPiece("ab", CollatedPieces)] == [GroupPiece("ab", CollatedPieces)];
    assert [] + Meaning(GroupPiece("ab", CollatedPieces)) == Meaning(GroupPiece("ab", CollatedPieces));
    CollatedParts();
    CollatedPrefixed();
  }

  lemma CollatedPrefixed()
    ensures Prefixed("ab", ["c", "d", "e"]) == ["abc", "abd", "abe"]
  {
    assert ["c", "d", "e"][1..] == ["d", "e"] && ["d", "e"][1..] == ["e"] && ["e"][1..] == [];
    assert "ab" + "c" == "abc" && "ab" + "d" == "abd" && "ab" + "e" == "abe";
  }

  lemma CollatedParts()
    ensures UnquoteAll(Meanings(CollatedPieces)) == ["c", "d", "e"]
  {
    hide Quote, Unquote;
    PlainLetter("c");
    PlainLetter("d");
    PlainLetter("e");
    NoMeanings();
    assert Meanings([] + [Text("c")]) == ["c"] by { MeaningsSnoc([], Text("c")); }
    assert [] + [Text("c")] == [Text("c")];
    assert Meanings([Text("c")] + [Text("d")]) == ["c", "d"] by { MeaningsSnoc([Text("c")], Text("d")); }
    assert [Text("c")] + [Text("d")] == [Text("c"), Text("d")];
    assert Meanings([Text("c"), Text("d")] + [Text("e")]) == ["c", "d", "e"] by {
      MeaningsSnoc([Text("c"), Text("d")], Text("e"));
    }
    assert [Text("c"), Text("d")] + [Text("e")] == CollatedPieces;
    assert ["c", "d", "e"][1..] == ["d", "e"] && ["d", "e"][1..] == ["e"] && ["e"][1..] == [];
  }

  // A longer prefix found after a shorter one can also send the code past the
  // end of a name.
  lemma ShortNameIsOverrun()
    ensures MungedResult(["abc", "a", "abd"], 0, 3, 0) == None
  {
    hide Lcp, Quote;
    var names := ["abc", "a", "abd"];
    LcpUnique("abc", "a", 1);
    LcpUnique("abc", "abd", 2);
    LcpUnique("a", "abd", 1);
    assert RunEnd(names, 0, 2, 3, 0) == 3 && RunEnd(names, 0, 1, 3, 0) == 3 && RunEnd(names, 0, 1, 3, 2) == 1;
    assert RunEnd(names, 1, 2, 3, 2) == 2;
    hide RunEnd;
    MungedStep(names, 1, 3, 2);
    MungedStep(names, 0, 3, 2);
    MungedStep(names, 0, 3, 0);
    assert MungedPiece(names, 1, 2, 2) == None by { hide Munged; }
  }

  // Names need not stand together to be tidy.
  lemma ApartButTidy()
    ensures !Grouped(["ab", "c", "ad"]) && Tidy(["ab", "c", "ad"], 0, 3, 0)
  {
    hide Lcp;
    var names := ["ab", "c", "ad"];
    LcpUnique("ab", "c", 0);
    LcpUnique("ab", "ad", 1);
    LcpUnique("c", "ad", 0);
    assert Lcp(names[0], names[2]) > Lcp(names[0], names[1]);
    assert RunEnd(names, 0, 1, 3, 0) == 1 && RunEnd(names, 1, 2, 3, 0) == 2 && RunEnd(names, 2, 3, 3, 0) == 3;
    hide RunEnd;
    assert Tidy(names, 2, 3, 0) && Tidy(names, 1, 3, 0);
  }

  // ------------------------------------------------------------- shielding

  predicate AllShielded(xs: seq<string>) { forall k :: 0 <= k < |xs| ==> Shielded(xs[k], "") }

  lemma {:induction false} PrefixedShielded(s: string, xs: seq<string>)
    requires Shielded(s, "") && AllShielded(xs)
    ensures AllShielded(Prefixed(s, xs))
  {
    hide Shielded;
    if xs != [] {
      ShieldedAppend(s, xs[0], "");
      PrefixedShielded(s, xs[1..]);
    }
  }

  // What a word expands to is shielded, and so is the word but for its braces
  // and commas.
  predicate ShieldedWord(w: Word) { AllShielded(Meaning(w)) && Shielded(Print(w), "{,}") }

  predicate ShieldedWords(ws: seq<Word>) { forall k :: 0 <= k < |ws| ==> ShieldedWord(ws[k]) }

  lemma {:induction false} MeaningsShielded(ws: seq<Word>)
    requires ShieldedWords(ws)
    ensures AllShielded(Meanings(ws))
  {
    hide Meaning, Print, Shielded;
    if ws != [] { MeaningsShielded(ws[..|ws| - 1]); }
  }

  lemma {:induction false} PiecesShielded(ws: seq<Word>)
    requires ws != [] && ShieldedWords(ws)
    ensures Shielded(PrintAmble(Pieces(ws)), "{,}")
  {
    hide Meaning, Print, Shielded;
    if |ws| > 1 {
      PiecesShielded(ws[1..]);
      SeparatorsShielded();
      ShieldedAppend(Print(ws[0]), ",", "{,}");
      ShieldedAppend(Print(ws[0]) + ",", PrintAmble(Pieces(ws[1..])), "{,}");
    }
  }

  lemma SeparatorsShielded()
    ensures Shielded(",", "{,}") && Shielded("{", "{,}") && Shielded("}", "{,}")
  {
    hide Special;
    CharMarked(',');
    CharMarked('{');
    CharMarked('}');
  }

  lemma CharMarked(c: char)
    requires c != '\\'
    ensures Marks([c]) == [Mark(c, false)] && Paired([c])
  {
    assert [c][1..] == [];
  }

  lemma BracedShielded(inner: string)
    requires Shielded(inner, "{,}")
    ensures Shielded("{" + inner + "}", "{,}")
  {
    hide Shielded;
    SeparatorsShielded();
    ShieldedAppend("{", inner, "{,}");
    ShieldedAppend("{" + inner, "}", "{,}");
  }

  lemma GroupShielded(prefix: string, sub: seq<Word>)
    requires sub != [] && ShieldedWords(sub)
    ensures ShieldedWord(GroupPiece(prefix, sub))
  {
    hide Quote, Shielded, Meaning, Print, Meanings, ShieldedWords, AllShielded, PrintAmble, Pieces;
    QuoteIsShielded(prefix);
    ShieldedMore(Quote(prefix), "{,}");
    PiecesShielded(sub);
    MeaningsShielded(sub);
    PrefixedShielded(Quote(prefix), Meanings(sub));
    GroupParts(prefix, sub);
    var inner := PrintAmble(Pieces(sub));
    BracedShielded(inner);
    ShieldedAppend(Quote(prefix), "{" + inner + "}", "{,}");
  }

  lemma GroupParts(prefix: string, sub: seq<Word>)
    requires sub != []
    ensures var w := GroupPiece(prefix, sub);
      && Meaning(w) == Prefixed(Quote(prefix), Meanings(sub))
      && Print(w) == Quote(prefix) + ("{" + PrintAmble(Pieces(sub)) + "}")
  {
    hide Quote, Product, Prefixed, Pieces, Choices, PrintAmble, Meanings;
    PiecesMeaning(sub);
    ProductUnit(Product([Quote(prefix)], Meanings(sub)));
    ProductOne(Quote(prefix), Meanings(sub));
    assert Quote(prefix) + "{" + PrintAmble(Pieces(sub)) + "}" + ""
        == Quote(prefix) + ("{" + PrintAmble(Pieces(sub)) + "}");
  }

  lemma {:induction false} MungedShielded(names: seq<string>, lo: nat, hi: nat, g: nat)
    requires lo <= hi <= |names| && Munged(names, lo, hi, g).Some?
    ensures ShieldedWords(Munged(names, lo, hi, g).value)
    decreases hi - lo, LeftOf(names, lo, g), 1
  {
    hide ShieldedWord, MungedPiece, Lcp;
    if lo < hi {
      var end := RunEnd(names, lo, lo + 1, hi, g);
      MungedShielded(names, end, hi, g);
      PieceShielded(names, lo, end, g);
    }
  }

  lemma {:induction false} PieceShielded(names: seq<string>, start: nat, end: nat, g: nat)
    requires start < end <= |names| && (end > start + 1 ==> RunPrefix(names, start, end) > g)
    requires MungedPiece(names, start, end, g).Some?
    ensures ShieldedWord(MungedPiece(names, start, end, g).value)
    decreases end - start, LeftOf(names, start, g), 0
  {
    hide Lcp, Munged, GroupPiece, Quote, Shielded, ShieldedWords;
    var gcd := RunPrefix(names, start, end);
    if end == start + 1 {
      QuoteIsShielded(names[start][g..]);
      ShieldedMore(Quote(names[start][g..]), "{,}");
    } else {
      hide ShieldedWord;
      MungedShielded(names, start, end, gcd);
      GroupShielded(names[start][g..gcd], Munged(names, start, end, gcd).value);
    }
  }

  // The word for any names: everything special in it is hidden but its braces
  // and commas, and everything special in what it expands to.
  lemma WordIsShielded(names: seq<string>, lo: nat, hi: nat)
    requires lo < hi <= |names| && MungedResult(names, lo, hi, 0).Some?
    ensures var word := MungedResult(names, lo, hi, 0).value;
      Shielded(word, "{,}") && AllShielded(Meaning(Parse(word)))
  {
    hide Munged, Lcp, ShieldedWord, ShieldedWords, MungedText, Shielded, AllShielded, Parse, Meaning, Meanings,
      WellFormed, Print, TopWord;
    var ws := Munged(names, lo, hi, 0).value;
    MungedShielded(names, lo, hi, 0);
    MungedShape(names, lo, hi, 0);
    TopWordFacts(ws);
    ParsePrint(TopWord(ws));
    MeaningsShielded(ws);
    TopShielded(ws);
  }

  lemma TopShielded(ws: seq<Word>)
    requires ws != [] && ShieldedWords(ws)
    ensures Shielded(Print(TopWord(ws)), "{,}")
  {
    hide Meaning, Print, PrintAmble, Pieces, Shielded;
    if |ws| > 1 {
      PiecesShielded(ws);
      BareGroup(Pieces(ws));
      BracedShielded(PrintAmble(Pieces(ws)));
    } else {
      assert ShieldedWord(ws[0]);
    }
  }

  // Each string the shell reads as one word of its own characters, if and only
  // if those are readable.
  predicate ReadAlike(xs: seq<string>) {
    forall k :: 0 <= k < |xs| ==> (Words(xs[k], None) == Some([Unquote(xs[k])]) <==> Readable(Unquote(xs[k])))
  }

  lemma ShieldedReadAlike(xs: seq<string>)
    requires AllShielded(xs)
    ensures ReadAlike(xs)
  {
    hide Shielded, Words, Readable, Unquote;
    forall k | 0 <= k < |xs|
      ensures Words(xs[k], None) == Some([Unquote(xs[k])]) <==> Readable(Unquote(xs[k]))
    {
      ShieldedIsRead(xs[k]);
    }
  }

  // The matches as they are munged: sorted first in a multibyte locale.
  function Matches(names: seq<string>, multibyte: bool): (r: seq<string>)
    requires names != []
    ensures |r| == |names| && r[0] == names[0] && multiset(r[1..]) == multiset(names[1..])
  {
    if multibyte && |names| > 2 then
      var sorted := SortedNames(names[1..]);
      assert |multiset(sorted)| == |multiset(names[1..])|;
      assert ([names[0]] + sorted)[1..] == sorted;
      [names[0]] + sorted
    else names
  }

  // hack_braces_completion: names[0] is what all matches share, the matches
  // follow it.  A single match is only quoted.  None if a name is read past
  // its end.
  method HackBracesCompletion(names: seq<string>, multibyte: bool) returns (word: Option<string>)
    requires names != [] && CStrings(names)
    ensures |names| == 1 ==> word == Some(Quote(names[0]))
    ensures word.Some? ==>
              && Shielded(word.value, "{,}")
              && AllShielded(Meaning(Parse(word.value))) && ReadAlike(Meaning(Parse(word.value)))
    ensures |names| > 1 ==>
              var s := Matches(names, multibyte);
              && ((word.Some? && UnquoteAll(Meaning(Parse(word.value))) == s[1..]) <==> Tidy(s, 1, |s|, 0))
              && (multibyte || Grouped(names[1..]) ==> Tidy(s, 1, |s|, 0))
  {
    hide Grouped, Lcp, Parse, Meaning, UnquoteAll, Quote, Suffixes, SortedNames, CStrings, Tidy, MungedResult,
      Shielded, AllShielded, ReadAlike;
    if |names| == 1 {
      var quoted := ShBackslashQuote(names[0]);
      SingleMatch(names[0]);
      return Some(quoted);
    }
    var sorted := Matches(names, multibyte);
    word := ReallyMungeBraces(sorted, 1, |sorted|, 0);
    if word.Some? {
      WordIsShielded(sorted, 1, |sorted|);
      ShieldedReadAlike(Meaning(Parse(word.value)));
    }
    ShareNothing(sorted, 1);
    RoundTripIffTidy(sorted, 1, |sorted|, 0);
    WholeSuffixes(sorted, 1);
    if multibyte { SortedMatches(names); }
    if multibyte || Grouped(names[1..]) {
      assert sorted[1..|sorted|] == sorted[1..];
      GroupedIsTidy(sorted, 1, |sorted|, 0);
    }
  }

  lemma SingleMatch(name: string)
    ensures Meaning(Parse(Quote(name))) == [Quote(name)]
    ensures Shielded(Quote(name), "{,}") && AllShielded([Quote(name)]) && ReadAlike([Quote(name)])
  {
    hide Quote, Shielded, Inert, Parse, ReadAlike;
    QuoteFacts(name);
    QuoteIsShielded(name);
    ShieldedMore(Quote(name), "{,}");
    ParsePrint(Text(Quote(name)));
    ShieldedReadAlike([Quote(name)]);
  }

  lemma ShareNothing(names: seq<string>, lo: nat)
    requires lo <= |names|
    ensures SharePrefix(names, lo, |names|, 0)
  {
  }

  lemma SortedMatches(names: seq<string>)
    requires |names| > 1 && CStrings(names)
    ensures Grouped(Matches(names, true)[1..])
  {
    var rest := names[1..];
    if |names| > 2 {
      assert CStrings(rest) by {
        assert forall i :: 0 <= i < |rest| ==> rest[i] == names[i + 1];
      }
      SortedStrings(rest);
      SortedIsGrouped(SortedNames(rest));
      assert Matches(names, true)[1..] == SortedNames(rest);
    }
  }

  lemma {:induction false} WholeSuffixes(names: seq<string>, lo: nat)
    requires lo <= |names|
    ensures Suffixes(names, lo, |names|, 0) == names[lo..]
    decreases |names| - lo
  {
    if lo < |names| {
      WholeSuffixes(names, lo + 1);
      assert names[lo][0..] == names[lo];
    }
  }
}
