/**
 * Rewriting a Google Sheets share URL into its CSV export URL
 * (`google_sheet_to_csv_url`). The input is the path component of the URL
 * (section 3.3 of RFC 3986), as `urlparse(...).path` would return it.
 */
module SheetUrl {
  import opened Wrappers

  const CSV_PREFIX: string := "https://docs.google.com/spreadsheets/d/"
  const CSV_SUFFIX: string := "/export?format=csv"

  /** The two exceptions the function can raise. */
  datatype UrlError =
    | ValueError  // raised explicitly: "Invalid Google Sheets URL or sheet ID not found."
    | IndexError  // raised by `path_parts[3]` when the list is too short

  /** Python's `s.split(sep)` for a one-character separator. */
  function Split(s: string, sep: char): (parts: seq<string>)
    ensures |parts| >= 1
    ensures forall i :: 0 <= i < |parts| ==> sep !in parts[i]
    decreases |s|
  {
    if |s| == 0 then [""]
    else
      assert s == [s[0]] + s[1..];
      var rest := Split(s[1..], sep);
      if s[0] == sep then [""] + rest
      else [[s[0]] + rest[0]] + rest[1..]
  }

  /** A string splits into one more part than it has separators. */
  lemma {:induction false} SplitCount(s: string, sep: char)
    ensures |Split(s, sep)| == multiset(s)[sep] + 1
    decreases |s|
  {
    if |s| > 0 {
      SplitCount(s[1..], sep);
      assert s == [s[0]] + s[1..];
      assert multiset(s) == multiset([s[0]]) + multiset(s[1..]);
    }
  }

  /** Python's `sep.join(parts)`. */
  function Join(parts: seq<string>, sep: char): string
    requires |parts| >= 1
  {
    if |parts| == 1 then parts[0] else parts[0] + [sep] + Join(parts[1..], sep)
  }

  /** Joining the parts of a split gives back the string. */
  lemma {:induction false} JoinSplit(s: string, sep: char)
    ensures Join(Split(s, sep), sep) == s
    decreases |s|
  {
    if |s| > 0 {
      JoinSplit(s[1..], sep);
      var rest := Split(s[1..], sep);
      if s[0] == sep {
        assert Split(s, sep) == [""] + rest;
        assert s == "" + [sep] + Join(rest, sep);
      } else {
        if |rest| == 1 {
          assert s == [s[0]] + rest[0];
        } else {
          assert Join(rest, sep) == rest[0] + [sep] + Join(rest[1..], sep);
          assert s == [s[0]] + rest[0] + [sep] + Join(rest[1..], sep);
        }
      }
    }
  }

  /** A prefix free of separators merges with the first part of what follows it. */
  lemma {:induction false} SplitFreePrefix(a: string, t: string, sep: char)
    requires sep !in a
    ensures Split(a + t, sep) == [a + Split(t, sep)[0]] + Split(t, sep)[1..]
    decreases |a|
  {
    if |a| == 0 {
      assert a + t == t;
      assert a + Split(t, sep)[0] == Split(t, sep)[0];
      assert [Split(t, sep)[0]] + Split(t, sep)[1..] == Split(t, sep);
    } else {
      SplitFreePrefix(a[1..], t, sep);
      assert (a + t)[1..] == a[1..] + t;
      assert [a[0]] + (a[1..] + Split(t, sep)[0]) == a + Split(t, sep)[0];
    }
  }

  /** Splitting `a + sep + b` with `a` free of separators yields `a` followed by the parts of `b`. */
  lemma SplitAtSeparator(a: string, b: string, sep: char)
    requires sep !in a
    ensures Split(a + [sep] + b, sep) == [a] + Split(b, sep)
  {
    SplitFreePrefix(a, [sep] + b, sep);
    assert a + [sep] + b == a + ([sep] + b);
    assert ([sep] + b)[1..] == b;
    assert a + "" == a;
  }

  /** Splitting the join of separator-free parts gives back the parts. */
  lemma {:induction false} SplitJoin(parts: seq<string>, sep: char)
    requires |parts| >= 1
    requires forall i :: 0 <= i < |parts| ==> sep !in parts[i]
    ensures Split(Join(parts, sep), sep) == parts
  {
    if |parts| == 1 {
      SplitFreePrefix(parts[0], "", sep);
      assert parts[0] + "" == parts[0];
    } else {
      SplitJoin(parts[1..], sep);
      SplitAtSeparator(parts[0], Join(parts[1..], sep), sep);
      assert [parts[0]] + parts[1..] == parts;
    }
  }

  /**
   * `google_sheet_to_csv_url` as written: the guard admits three parts, but the
   * sheet ID is read from index 3, which needs four.
   */
  function ToCsvUrlAsWritten(path: string): (r: Result<string, UrlError>)
  {
    var parts := Split(path, '/');
    if |parts| >= 3 then
      if 3 < |parts| then Ok(CSV_PREFIX + parts[3] + CSV_SUFFIX) else Err(IndexError)
    else Err(ValueError)
  }

  /** The outcome of the function as written, for every path. */
  lemma AsWrittenOutcome(path: string)
    ensures |Split(path, '/')| < 3 ==> ToCsvUrlAsWritten(path) == Err(ValueError)
    ensures |Split(path, '/')| == 3 ==> ToCsvUrlAsWritten(path) == Err(IndexError)
    ensures |Split(path, '/')| >= 4 <==> ToCsvUrlAsWritten(path).Ok?
  {
  }

  /**
   * The path "/spreadsheets/d" splits into three parts, passes the guard and then
   * fails on the index: the function raises IndexError, not its own ValueError.
   */
  lemma ThreePartPathRaisesIndexError()
    ensures Split("/spreadsheets/d", '/') == ["", "spreadsheets", "d"]
    ensures ToCsvUrlAsWritten("/spreadsheets/d") == Err(IndexError)
  {
    var parts := ["", "spreadsheets", "d"];
    assert Join(parts, '/') == "/spreadsheets/d";
    SplitJoin(parts, '/');
  }

  /** The fourth part of the path (index 3), when there is one. */
  function SheetId(path: string): (id: Option<string>)
    ensures id.Some? <==> |Split(path, '/')| >= 4
    ensures id.Some? ==> '/' !in id.value
    ensures id.Some? ==> id.value == Split(path, '/')[3]
  {
    var parts := Split(path, '/');
    if |parts| >= 4 then Some(parts[3]) else None
  }

  /**
   * `google_sheet_to_csv_url` with the guard the index needs (`len(path_parts) >= 4`):
   * a path with fewer than three slashes raises ValueError, and no other error is raised.
   */
  function ToCsvUrl(path: string): (r: Result<string, UrlError>)
    ensures r.Ok? <==> |Split(path, '/')| >= 4
    ensures r.Err? ==> r.error == ValueError
    ensures r.Ok? ==> r.value == CSV_PREFIX + SheetId(path).value + CSV_SUFFIX
  {
    match SheetId(path)
    case Some(id) => Ok(CSV_PREFIX + id + CSV_SUFFIX)
    case None => Err(ValueError)
  }

  /** The corrected function differs from the one as written only on three-part paths. */
  lemma CorrectedAgreesExceptOnThreeParts(path: string)
    ensures |Split(path, '/')| != 3 ==> ToCsvUrl(path) == ToCsvUrlAsWritten(path)
    ensures |Split(path, '/')| == 3 ==> ToCsvUrl(path) == Err(ValueError) && ToCsvUrlAsWritten(path) == Err(IndexError)
  {
  }

  /** The parts of a separator-free id followed by an empty or separator-led tail. */
  lemma SplitIdTail(id: string, tail: string)
    requires '/' !in id
    requires tail == "" || tail[0] == '/'
    ensures Split(id + tail, '/')[0] == id
  {
    if tail == "" {
      SplitFreePrefix(id, "", '/');
      assert id + tail == id + "" == id;
    } else {
      assert id + tail == id + ['/'] + tail[1..];
      SplitAtSeparator(id, tail[1..], '/');
    }
  }

  /** Splitting after the separator-free parts of a join continues with the parts of the rest. */
  lemma {:induction false} SplitAfterJoin(ps: seq<string>, b: string, sep: char)
    requires |ps| >= 1
    requires forall i :: 0 <= i < |ps| ==> sep !in ps[i]
    ensures Split(Join(ps, sep) + [sep] + b, sep) == ps + Split(b, sep)
  {
    if |ps| == 1 {
      assert Join(ps, sep) == ps[0] && ps == [ps[0]];
      SplitAtSeparator(ps[0], b, sep);
    } else {
      var tail := Join(ps[1..], sep) + [sep] + b;
      SplitAfterJoin(ps[1..], b, sep);
      assert Join(ps, sep) + [sep] + b == ps[0] + [sep] + tail;
      SplitAtSeparator(ps[0], tail, sep);
      assert ps == [ps[0]] + ps[1..];
    }
  }

  /**
   * For a share link path "/spreadsheets/d/<id>" optionally followed by "/..." (such
   * as "/edit"), the export URL carries exactly that id.
   */
  lemma ExtractsIdFromSharePath(id: string, tail: string)
    requires '/' !in id
    requires tail == "" || tail[0] == '/'
    ensures ToCsvUrl("/spreadsheets/d/" + id + tail) == Ok(CSV_PREFIX + id + CSV_SUFFIX)
  {
    var lead := ["", "spreadsheets", "d"];
    assert Join(lead, '/') == "/spreadsheets/d";
    assert "/spreadsheets/d/" + id + tail == Join(lead, '/') + ['/'] + (id + tail);
    SplitAfterJoin(lead, id + tail, '/');
    SplitIdTail(id, tail);
  }
}
