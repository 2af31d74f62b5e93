// Discovery of database files: the recursive glob for `*.sql` followed by the
// recursive glob for `*.sqlite3`, both over the same walk of the source tree.
// The walk is an input: the relative paths of every entry under the source
// root, in the order the traversal yields them.
module Scanner {
  import opened Strings
  import opened Paths

  const SqlSuffix := ".sql"
  const SqliteSuffix := ".sqlite3"

  predicate IsEligible(entry: string) {
    EndsWith(entry, SqlSuffix) || EndsWith(entry, SqliteSuffix)
  }

  /** A walk lists paths relative to the root, none of them empty or absolute. */
  predicate WellFormedWalk(entries: seq<string>) {
    forall i :: 0 <= i < |entries| ==> entries[i] != "" && !IsAbsolute(entries[i])
  }

  /** One glob pattern: the entries whose name ends in `suffix`, in walk order. */
  function Matching(entries: seq<string>, suffix: string): seq<string> {
    if entries == [] then []
    else (if EndsWith(entries[0], suffix) then [entries[0]] else []) + Matching(entries[1..], suffix)
  }

  /** The eligible entries: every `.sql` match, then every `.sqlite3` match. */
  function Eligible(entries: seq<string>): seq<string> {
    Matching(entries, SqlSuffix) + Matching(entries, SqliteSuffix)
  }

  /** `source_path / entry` for every eligible entry, as `db_files` holds them. */
  function DbFiles(root: string, entries: seq<string>): (files: seq<string>)
    ensures |files| == |Eligible(entries)|
  {
    var eligible := Eligible(entries);
    seq(|eligible|, i requires 0 <= i < |eligible| => Join(root, eligible[i]))
  }

  /** A glob keeps each entry as often as the walk lists it when its name has the
      suffix, and drops it otherwise. */
  lemma {:induction false} MatchingCount(entries: seq<string>, suffix: string, x: string)
    ensures multiset(Matching(entries, suffix))[x] ==
            if EndsWith(x, suffix) then multiset(entries)[x] else 0
  {
    if entries != [] {
      MatchingCount(entries[1..], suffix, x);
      assert entries == [entries[0]] + entries[1..];
    }
  }

  lemma {:induction false} MatchingAll(entries: seq<string>, suffix: string)
    ensures forall i :: 0 <= i < |Matching(entries, suffix)| ==> EndsWith(Matching(entries, suffix)[i], suffix)
  {
    if entries != [] {
      MatchingAll(entries[1..], suffix);
    }
  }

  /** No name ends in both suffixes (one ends in 'l', the other in '3'). */
  lemma SuffixesDisjoint(x: string)
    ensures !(EndsWith(x, SqlSuffix) && EndsWith(x, SqliteSuffix))
  {
    if EndsWith(x, SqlSuffix) {
      assert x[|x| - 1] == x[|x| - 4..][3] == 'l';
    }
  }

  /** Selection: an entry is discovered as often as the walk lists it when it
      ends in `.sql` or `.sqlite3`, and never otherwise; in particular no file is
      discovered twice by the two patterns. */
  lemma EligibleCount(entries: seq<string>, x: string)
    ensures multiset(Eligible(entries))[x] == if IsEligible(x) then multiset(entries)[x] else 0
    ensures x in Eligible(entries) <==> x in entries && IsEligible(x)
  {
    MatchingCount(entries, SqlSuffix, x);
    MatchingCount(entries, SqliteSuffix, x);
    SuffixesDisjoint(x);
    assert multiset(Eligible(entries)) == multiset(Matching(entries, SqlSuffix)) + multiset(Matching(entries, SqliteSuffix));
  }

  /** Order: every `.sql` match comes before every `.sqlite3` match. */
  lemma EligibleOrder(entries: seq<string>)
    ensures forall i :: 0 <= i < |Eligible(entries)| ==>
      (i < |Matching(entries, SqlSuffix)| <==> EndsWith(Eligible(entries)[i], SqlSuffix))
    ensures forall i :: 0 <= i < |Eligible(entries)| ==> IsEligible(Eligible(entries)[i])
  {
    var a, b := Matching(entries, SqlSuffix), Matching(entries, SqliteSuffix);
    MatchingAll(entries, SqlSuffix);
    MatchingAll(entries, SqliteSuffix);
    forall i | 0 <= i < |a + b|
      ensures (i < |a| <==> EndsWith((a + b)[i], SqlSuffix)) && IsEligible((a + b)[i])
    {
      if i >= |a| {
        assert (a + b)[i] == b[i - |a|];
        SuffixesDisjoint(b[i - |a|]);
      }
    }
  }

  /** Discovered files lie under the source root, at their walk entry. */
  lemma DbFilesUnderRoot(root: string, entries: seq<string>)
    requires WellFormedWalk(entries)
    ensures forall i :: 0 <= i < |DbFiles(root, entries)| ==>
      RelativeTo(DbFiles(root, entries)[i], root) == Some(Eligible(entries)[i])
  {
    var eligible := Eligible(entries);
    forall i | 0 <= i < |eligible|
      ensures RelativeTo(DbFiles(root, entries)[i], root) == Some(eligible[i])
    {
      EligibleCount(entries, eligible[i]);
      var j :| 0 <= j < |entries| && entries[j] == eligible[i];
      RelativeToJoin(root, eligible[i]);
    }
  }
}
