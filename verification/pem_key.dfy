/**
  Rebuilding the warehouse connection's private key from its stored secret. The secret
  holds the key's lines as the text of a list of quoted strings, `['line', 'line', ...]`;
  the lines are recovered by dropping the brackets, splitting at ", " and dropping each
  line's quotes, then joined with newlines.
 */
module PemKey {
  import opened Wrappers
  import opened Strings

  const ItemSeparator: string := ", "

  /** Python `s.rfind(c)`: the last index of `c`, or -1. */
  function RFind(s: string, c: char): (r: int)
    ensures -1 <= r < |s|
    ensures r >= 0 ==> s[r] == c && forall j :: r < j < |s| ==> s[j] != c
    ensures r == -1 ==> c !in s
  {
    if |s| == 0 then -1
    else if s[|s| - 1] == c then |s| - 1
    else RFind(s[..|s| - 1], c)
  }

  /** Python `s[:k]`: a negative `k` counts from the end. */
  function SliceTo(s: string, k: int): (r: string)
    ensures 0 <= k <= |s| ==> r == s[..k]
    ensures k < 0 ==> r == s[..if k + |s| < 0 then 0 else k + |s|]
  {
    if k < 0 then s[..if k + |s| < 0 then 0 else k + |s|]
    else if k > |s| then s
    else s[..k]
  }

  /** `remove_last_line_from_string`: everything before the last newline; with none, the last character is dropped. */
  function RemoveLastLine(s: string): (r: string)
    ensures '\n' in s ==> r == s[..RFind(s, '\n')]
    ensures '\n' !in s && |s| > 0 ==> r == s[..|s| - 1]
    ensures |s| == 0 ==> r == ""
  {
    SliceTo(s, RFind(s, '\n'))
  }

  /** Removing the last line of text ending in a newline drops just that newline. */
  lemma RemoveTrailingNewline(t: string)
    ensures RemoveLastLine(t + "\n") == t
  {
    var s := t + "\n";
    assert s[|s| - 1] == '\n';
    assert RFind(s, '\n') == |t|;
  }

  /** The loop's text: each item's inner text followed by a newline. */
  function Lines(items: seq<string>): string {
    if |items| == 0 then "" else Lines(items[..|items| - 1]) + Inner(items[|items| - 1]) + "\n"
  }

  /** Each item with its first and last character dropped. */
  function Inners(items: seq<string>): (r: seq<string>)
    ensures |r| == |items|
    ensures forall k :: 0 <= k < |items| ==> r[k] == Inner(items[k])
  {
    seq(|items|, k requires 0 <= k < |items| => Inner(items[k]))
  }

  /** The loop of `get_snowflake_connection` that builds the key text line by line. */
  method AccumulateKey(items: seq<string>) returns (key: string)
    ensures key == Lines(items)
    ensures |items| >= 1 ==> key == Join(Inners(items), "\n") + "\n"
  {
    key := "";
    var i := 0;
    while i < |items|
      invariant 0 <= i <= |items|
      invariant key == Lines(items[..i])
    {
      assert items[..i + 1][..i] == items[..i];
      key := key + Inner(items[i]) + "\n";
      i := i + 1;
    }
    assert items[..|items|] == items;
    if |items| >= 1 {
      LinesJoin(items);
    }
  }

  /** The accumulated lines are the inner texts joined with newlines, plus a final newline. */
  lemma {:induction false} LinesJoin(items: seq<string>)
    requires |items| >= 1
    ensures Lines(items) == Join(Inners(items), "\n") + "\n"
    decreases |items|
  {
    if |items| == 1 {
      OneLine(items);
    } else {
      var init := items[..|items| - 1];
      var last := Inner(items[|items| - 1]);
      LinesJoin(init);
      InnersSnoc(items);
      JoinSnoc(Inners(init), last, "\n");
    }
  }

  lemma OneLine(items: seq<string>)
    requires |items| == 1
    ensures Lines(items) == Join(Inners(items), "\n") + "\n"
  {
    var x := Inner(items[0]);
    assert items[..0] == [];
    assert Lines(items) == "" + x + "\n";
    assert Inners(items) == [x];
  }

  /** The inner texts of all items are those of all but the last, then the last one's. */
  lemma InnersSnoc(items: seq<string>)
    requires |items| >= 1
    ensures Inners(items) == Inners(items[..|items| - 1]) + [Inner(items[|items| - 1])]
  {
  }

  /** Joining with one more piece at the end appends a separator and that piece. */
  lemma {:induction false} JoinSnoc(pieces: seq<string>, last: string, sep: string)
    requires |pieces| >= 1
    ensures Join(pieces + [last], sep) == Join(pieces, sep) + sep + last
    decreases |pieces|
  {
    if |pieces| == 1 {
      assert pieces + [last] == [pieces[0], last];
    } else {
      assert (pieces + [last])[1..] == pieces[1..] + [last];
      JoinSnoc(pieces[1..], last, sep);
    }
  }

  /** The key text rebuilt from the stored secret. */
  function ReassembleKey(secret: string): (key: string)
    ensures key == Join(Inners(Split(Inner(secret), ItemSeparator)), "\n")
  {
    var items := Split(Inner(secret), ItemSeparator);
    LinesJoin(items);
    RemoveTrailingNewline(Join(Inners(items), "\n"));
    RemoveLastLine(Lines(items))
  }

  /** The stored form of the key's lines: a bracketed list of single-quoted strings. */
  function Quote(line: string): string {
    "'" + line + "'"
  }

  function Quoted(lines: seq<string>): (r: seq<string>)
    ensures |r| == |lines|
    ensures forall k :: 0 <= k < |lines| ==> r[k] == Quote(lines[k])
  {
    seq(|lines|, k requires 0 <= k < |lines| => Quote(lines[k]))
  }

  function StoredSecret(lines: seq<string>): string {
    "[" + Join(Quoted(lines), ItemSeparator) + "]"
  }

  /**
    The separator's first occurrence in `p + sep` is the appended one: no occurrence starts
    inside `p`.
   */
  predicate EndsAtSeparator(p: string, sep: string) {
    forall j :: 0 <= j < |p| ==> !OccursAt(p + sep, sep, j)
  }

  /** Splitting a join gives back the pieces when no piece runs into the separator. */
  lemma {:induction false} SplitJoinSeparated(pieces: seq<string>, sep: string)
    requires |sep| > 0 && |pieces| >= 1
    requires forall k :: 0 <= k < |pieces| ==> EndsAtSeparator(pieces[k], sep)
    ensures Split(Join(pieces, sep), sep) == pieces
    decreases |pieces|
  {
    var p := pieces[0];
    if |pieces| == 1 {
      forall j | 0 <= j < |p|
        ensures !OccursAt(p, sep, j)
      {
        assert !OccursAt(p + sep, sep, j);
        if j + |sep| <= |p| {
          assert (p + sep)[j..j + |sep|] == p[j..j + |sep|];
        }
      }
      assert FindFrom(p, sep, 0).None?;
    } else {
      var tail := Join(pieces[1..], sep);
      var s := Join(pieces, sep);
      assert s == p + sep + tail;
      assert s[|p|..|p| + |sep|] == sep;
      forall j | 0 <= j < |p|
        ensures !OccursAt(s, sep, j)
      {
        assert !OccursAt(p + sep, sep, j);
        assert (p + sep)[j..j + |sep|] == s[j..j + |sep|];
      }
      assert OccursAt(s, sep, |p|);
      assert FindFrom(s, sep, 0) == Some(|p|);
      assert s[..|p|] == p;
      assert s[|p| + |sep|..] == tail;
      SplitJoinSeparated(pieces[1..], sep);
      assert pieces == [p] + pieces[1..];
    }
  }

  /** A quoted line without ", " in it cannot run into the separator. */
  lemma QuotedEndsAtSeparator(line: string)
    requires !Contains(line, ItemSeparator)
    ensures EndsAtSeparator(Quote(line), ItemSeparator)
  {
    var q := Quote(line) + ItemSeparator;
    assert q[0] == '\'' && q[|line| + 1] == '\'';
    forall j | 0 <= j < |Quote(line)|
      ensures !OccursAt(q, ItemSeparator, j)
    {
      if OccursAt(q, ItemSeparator, j) {
        assert q[j] == q[j..j + 2][0] == ',';
        assert q[j + 1] == q[j..j + 2][1] == ' ';
        assert 1 <= j < |line|;
        assert q[j] == line[j - 1] && q[j + 1] == line[j];
        assert line[j - 1..j + 1] == ItemSeparator;
        assert OccursAt(line, ItemSeparator, j - 1);
        assert false;
      }
    }
  }

  /**
    The round trip: the key rebuilt from the stored form of its lines is those lines joined
    with newlines, provided no line contains ", ".
   */
  lemma {:induction false} ReassembleStoredSecret(lines: seq<string>)
    requires |lines| >= 1
    requires forall k :: 0 <= k < |lines| ==> !Contains(lines[k], ItemSeparator)
    ensures ReassembleKey(StoredSecret(lines)) == Join(lines, "\n")
  {
    var joined := Join(Quoted(lines), ItemSeparator);
    assert Inner(StoredSecret(lines)) == joined;
    forall k | 0 <= k < |lines|
      ensures EndsAtSeparator(Quoted(lines)[k], ItemSeparator)
    {
      QuotedEndsAtSeparator(lines[k]);
    }
    SplitJoinSeparated(Quoted(lines), ItemSeparator);
    assert Inners(Quoted(lines)) == lines;
  }
}
