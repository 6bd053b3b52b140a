/**
 * The temporary files between split() and the merges: save() and writeLn()
 * put each record on a line of its own with BufferedWriter.newLine(), and
 * performMerge() reads them back with BufferedReader.readLine(). Reading
 * gives back what was written exactly when no record holds a line terminator.
 * Engine.SortOut does not go through this module: it treats a temporary file
 * as the records written to it, and this module shows for which records that
 * holds.
 */
module TempFiles {
  import opened Ordering

  /** The characters readLine() ends a line at. */
  predicate IsTerminator(c: char)
  {
    c == '\n' || c == '\r'
  }

  predicate NoTerminator(r: Record)
  {
    forall i :: 0 <= i < |r| ==> !IsTerminator(r[i])
  }

  /** The text of a temporary file: each record followed by the line separator '\n'. */
  function WriteLines(rs: seq<Record>): (text: string)
    decreases |rs|
  {
    if rs == [] then [] else rs[0] + "\n" + WriteLines(rs[1..])
  }

  /** The index of the first line terminator in s (|s| when there is none). */
  function LineEnd(s: string): (n: nat)
    ensures n <= |s|
    ensures forall i :: 0 <= i < n ==> !IsTerminator(s[i])
    ensures n < |s| ==> IsTerminator(s[n])
    decreases |s|
  {
    if s == [] || IsTerminator(s[0]) then 0
    else
      var n := LineEnd(s[1..]);
      assert forall i :: 1 <= i < n + 1 ==> s[i] == s[1..][i - 1];
      n + 1
  }

  /** Where the next line starts after the terminator at n: "\r\n" is one terminator. */
  function NextLine(s: string, n: nat): (m: nat)
    requires n < |s| && IsTerminator(s[n])
    ensures n < m <= |s|
  {
    if s[n] == '\r' && n + 1 < |s| && s[n + 1] == '\n' then n + 2 else n + 1
  }

  /** The records readLine() returns, one per call, until it returns null at the end of the text. */
  function ReadLines(s: string): (rs: seq<Record>)
    ensures forall i :: 0 <= i < |rs| ==> NoTerminator(rs[i])
    decreases |s|
  {
    if s == [] then []
    else
      var n := LineEnd(s);
      if n == |s| then [s]
      else
        var rest := ReadLines(s[NextLine(s, n)..]);
        assert NoTerminator(s[..n]);
        assert forall i :: 1 <= i < |rest| + 1 ==> ([s[..n]] + rest)[i] == rest[i - 1];
        [s[..n]] + rest
  }

  /** A record with no terminator is read back whole, up to the separator written after it. */
  lemma {:induction false} LineEndAfterRecord(r: Record, t: string)
    requires NoTerminator(r)
    ensures LineEnd(r + "\n" + t) == |r|
  {
    var s := r + "\n" + t;
    assert s[|r|] == '\n';
    assert forall i :: 0 <= i < |r| ==> s[i] == r[i];
  }

  /** A temporary file reads back as the records written to it, when none holds a terminator. */
  lemma {:induction false} ReadBackWritten(rs: seq<Record>)
    requires forall i :: 0 <= i < |rs| ==> NoTerminator(rs[i])
    ensures ReadLines(WriteLines(rs)) == rs
    decreases |rs|
  {
    if rs != [] {
      var r := rs[0];
      var t := WriteLines(rs[1..]);
      var s := r + "\n" + t;
      assert WriteLines(rs) == s;
      LineEndAfterRecord(r, t);
      assert s[..|r|] == r;
      assert s[|r|] == '\n';
      assert s[|r| + 1..] == t;
      assert forall i :: 0 <= i < |rs[1..]| ==> rs[1..][i] == rs[i + 1];
      ReadBackWritten(rs[1..]);
      assert rs == [r] + rs[1..];
    }
  }

  /** Writing and reading back is the identity exactly on records without terminators. */
  lemma {:induction false} ReadBackIff(rs: seq<Record>)
    ensures ReadLines(WriteLines(rs)) == rs <==> forall i :: 0 <= i < |rs| ==> NoTerminator(rs[i])
  {
    if forall i :: 0 <= i < |rs| ==> NoTerminator(rs[i]) {
      ReadBackWritten(rs);
    }
  }

  /** A record that holds '\n' comes back from a temporary file as two records. */
  lemma SplitAtNewline()
    ensures ReadLines(WriteLines(["a\nb"])) == ["a", "b"]
  {
    var s := WriteLines(["a\nb"]);
    assert WriteLines(["a\nb"][1..]) == [];
    assert s == "a\nb\n";
    assert LineEnd(s) == 1;
    assert NextLine(s, 1) == 2;
    var t := s[2..];
    assert t == "b\n";
    assert LineEnd(t) == 1;
    assert NextLine(t, 1) == 2;
    assert t[2..] == [];
    assert ReadLines(t[2..]) == [];
    assert t[..1] == "b";
    assert ReadLines(t) == ["b"];
    assert s[..1] == "a";
  }
}
