/**
 * The byte-slice helpers of the manifests package: prefix matching, first
 * occurrence, splitting on a separator, whitespace trimming and the
 * multi-document YAML splitter built from them.
 *
 * Go slices are read here, never written, so every slice is a `seq<byte>`.
 * Each loop of the source is a method proved against a specification
 * function; the properties the package relies on are lemmas about those
 * functions.
 */
module Bytes {

  newtype byte = b: int | 0 <= b < 256

  const Tab: byte := 9
  const LineFeed: byte := 10
  const CarriageReturn: byte := 13
  const Space: byte := 32
  const Dash: byte := 45

  /** The document separator `"\n---\n"`. */
  const Separator: seq<byte> := [LineFeed, Dash, Dash, Dash, LineFeed]

  /** The four bytes before the final line feed of a separator line, `"\n---"`. */
  const SeparatorLineHead: seq<byte> := [LineFeed, Dash, Dash, Dash]

  /** The bytes `trimSpace` removes: space, tab, line feed, carriage return. */
  predicate IsSpace(b: byte) {
    b == Space || b == Tab || b == LineFeed || b == CarriageReturn
  }

  // ---------------------------------------------------------------------
  // Occurrences

  /** `sep` occurs in `data` at offset `i`, i.e. `matchBytes(data[i:], sep)`. */
  predicate OccursAt(data: seq<byte>, sep: seq<byte>, i: int) {
    0 <= i && i + |sep| <= |data| && data[i..i + |sep|] == sep
  }

  ghost predicate Contains(data: seq<byte>, sep: seq<byte>) {
    exists i :: OccursAt(data, sep, i)
  }

  /** The first occurrence of `sep` at or after offset `from`, or -1 (lemma
      IndexFromIsFirst). */
  function IndexFrom(data: seq<byte>, sep: seq<byte>, from: nat): (r: int)
    requires |sep| > 0
    ensures r == -1 || from <= r <= |data| - |sep|
    decreases |data| - from
  {
    if from + |sep| > |data| then -1
    else if data[from..from + |sep|] == sep then from
    else IndexFrom(data, sep, from + 1)
  }

  lemma {:induction false} IndexFromIsFirst(data: seq<byte>, sep: seq<byte>, from: nat)
    requires |sep| > 0
    ensures var r := IndexFrom(data, sep, from);
            && (r >= 0 ==> OccursAt(data, sep, r))
            && (r >= 0 ==> forall j :: from <= j < r ==> !OccursAt(data, sep, j))
            && (r == -1 ==> forall j :: from <= j ==> !OccursAt(data, sep, j))
    decreases |data| - from
  {
    if from + |sep| <= |data| && data[from..from + |sep|] != sep {
      IndexFromIsFirst(data, sep, from + 1);
    }
  }

  /** What `indexBytes` computes: 0 for an empty separator, else the first
      offset at which `sep` occurs, or -1 when it occurs nowhere (lemma
      IndexIsFirst). */
  function Index(data: seq<byte>, sep: seq<byte>): (r: int)
    ensures r == -1 || 0 <= r <= |data| - |sep|
  {
    if |sep| == 0 then 0 else IndexFrom(data, sep, 0)
  }

  /** Index finds the first occurrence, and -1 exactly when there is none. */
  lemma IndexIsFirst(data: seq<byte>, sep: seq<byte>)
    ensures |sep| == 0 ==> Index(data, sep) == 0
    ensures |sep| > 0 && Index(data, sep) >= 0 ==>
              && OccursAt(data, sep, Index(data, sep))
              && forall j :: 0 <= j < Index(data, sep) ==> !OccursAt(data, sep, j)
    ensures |sep| > 0 ==> (Index(data, sep) == -1 <==> !Contains(data, sep))
  {
    if |sep| > 0 {
      IndexFromIsFirst(data, sep, 0);
    }
  }

  /** `matchBytes`: does `data` begin with `pattern`? */
  method MatchBytes(data: seq<byte>, pattern: seq<byte>) returns (matched: bool)
    ensures matched <==> pattern <= data
  {
    if |data| < |pattern| {
      return false;
    }
    var i := 0;
    while i < |pattern|
      invariant 0 <= i <= |pattern|
      invariant data[..i] == pattern[..i]
    {
      if data[i] != pattern[i] {
        return false;
      }
      i := i + 1;
    }
    assert data[..|pattern|] == pattern;
    return true;
  }

  /** `indexBytes`: the first occurrence of `sep` in `data`, as lemma
      IndexIsFirst describes `Index`. */
  method IndexBytes(data: seq<byte>, sep: seq<byte>) returns (idx: int)
    ensures idx == Index(data, sep)
  {
    IndexIsFirst(data, sep);
    if |sep| == 0 {
      return 0;
    }
    var i := 0;
    while i <= |data| - |sep|
      invariant 0 <= i
      invariant i <= |data| - |sep| + 1 || i == 0
      invariant forall j :: 0 <= j < i ==> !OccursAt(data, sep, j)
    {
      var m := MatchBytes(data[i..], sep);
      if m {
        assert data[i..][..|sep|] == data[i..i + |sep|];
        assert OccursAt(data, sep, i);
        return i;
      }
      assert data[i..][..|sep|] == data[i..i + |sep|];
      i := i + 1;
    }
    forall j | i <= j
      ensures !OccursAt(data, sep, j)
    {
    }
    return -1;
  }

  // ---------------------------------------------------------------------
  // Splitting

  /** What `splitBytes` computes: the pieces of `data` between successive
      first occurrences of `sep`; an empty `data` gives no pieces. */
  function Split(data: seq<byte>, sep: seq<byte>): seq<seq<byte>>
    decreases |data|
  {
    if |sep| == 0 then [data]
    else if |data| == 0 then []
    else
      var i := Index(data, sep);
      if i < 0 then [data]
      else [data[..i]] + Split(data[i + |sep|..], sep)
  }

  /** The parts joined back together, `sep` between neighbours. */
  function Join(parts: seq<seq<byte>>, sep: seq<byte>): seq<byte>
  {
    if |parts| == 0 then []
    else if |parts| == 1 then parts[0]
    else parts[0] + sep + Join(parts[1..], sep)
  }

  /** One step of Split: cut at the first occurrence of the separator. */
  lemma SplitStep(data: seq<byte>, sep: seq<byte>, i: int)
    requires |sep| > 0 && |data| > 0 && i == Index(data, sep) && i >= 0
    ensures i + |sep| <= |data|
    ensures data == data[..i] + sep + data[i + |sep|..]
    ensures Split(data, sep) == [data[..i]] + Split(data[i + |sep|..], sep)
  {
    IndexFromIsFirst(data, sep, 0);
    assert OccursAt(data, sep, i);
    assert data == data[..i] + data[i..i + |sep|] + data[i + |sep|..];
  }

  /** `splitBytes`. */
  method SplitBytes(data: seq<byte>, sep: seq<byte>) returns (parts: seq<seq<byte>>)
    ensures parts == Split(data, sep)
  {
    if |sep| == 0 {
      return [data];
    }
    parts := [];
    var rest := data;
    while |rest| > 0
      invariant parts + Split(rest, sep) == Split(data, sep)
      decreases |rest|
    {
      var idx := IndexBytes(rest, sep);
      if idx < 0 {
        parts := parts + [rest];
        break;
      }
      SplitStep(rest, sep, idx);
      parts := parts + [rest[..idx]];
      rest := rest[idx + |sep|..];
    }
  }

  /** A non-empty input always yields at least one part. */
  lemma SplitNonEmpty(data: seq<byte>, sep: seq<byte>)
    requires |data| > 0
    ensures |Split(data, sep)| > 0
  {
  }

  /** A piece before the first occurrence of the separator is separator-free. */
  lemma PrefixBeforeIndexIsSeparatorFree(data: seq<byte>, sep: seq<byte>, i: int)
    requires |sep| > 0 && i == Index(data, sep) && i >= 0
    ensures !Contains(data[..i], sep)
  {
    IndexIsFirst(data, sep);
    OccursInSlice(data, 0, i, sep);
    assert data[0..i] == data[..i];
  }

  /** No part produced by `splitBytes` contains the separator. */
  lemma {:induction false} SplitPartsAreSeparatorFree(data: seq<byte>, sep: seq<byte>)
    requires |sep| > 0
    ensures forall p :: p in Split(data, sep) ==> !Contains(p, sep)
    decreases |data|
  {
    if |data| > 0 {
      var i := Index(data, sep);
      if i < 0 {
        IndexIsFirst(data, sep);
        assert Split(data, sep) == [data];
      } else {
        SplitStep(data, sep, i);
        PrefixBeforeIndexIsSeparatorFree(data, sep, i);
        SplitPartsAreSeparatorFree(data[i + |sep|..], sep);
      }
    }
  }

  /** Join of a part followed by at least one more. */
  lemma JoinCons(p: seq<byte>, parts: seq<seq<byte>>, sep: seq<byte>)
    requires |parts| > 0
    ensures Join([p] + parts, sep) == p + sep + Join(parts, sep)
  {
    assert ([p] + parts)[1..] == parts;
  }

  /** `parts` joined gives `data`, possibly without one trailing separator. */
  predicate JoinsBack(parts: seq<seq<byte>>, sep: seq<byte>, data: seq<byte>) {
    Join(parts, sep) == data || (|parts| > 0 && Join(parts, sep) + sep == data)
  }

  /** Prepending a piece and a separator keeps JoinsBack. */
  lemma JoinsBackCons(head: seq<byte>, parts: seq<seq<byte>>, sep: seq<byte>, rest: seq<byte>)
    requires |parts| > 0 && JoinsBack(parts, sep, rest)
    ensures JoinsBack([head] + parts, sep, head + sep + rest)
  {
    JoinCons(head, parts, sep);
    var joined := Join(parts, sep);
    if joined != rest {
      assert head + sep + joined + sep == head + sep + (joined + sep);
    }
  }

  /** Joining the parts with the separator gives back `data`, or `data`
      without exactly one trailing separator. */
  lemma {:induction false} SplitJoin(data: seq<byte>, sep: seq<byte>)
    requires |sep| > 0
    ensures JoinsBack(Split(data, sep), sep, data)
    decreases |data|
  {
    if |data| > 0 {
      var i := Index(data, sep);
      if i >= 0 {
        SplitStep(data, sep, i);
        var head := data[..i];
        var rest := data[i + |sep|..];
        if |rest| == 0 {
          assert Split(data, sep) == [head];
          assert data == head + sep;
        } else {
          SplitNonEmpty(rest, sep);
          SplitJoin(rest, sep);
          JoinsBackCons(head, Split(rest, sep), sep, rest);
        }
      } else {
        assert Split(data, sep) == [data];
      }
    }
  }

  // ---------------------------------------------------------------------
  // Trimming

  /** `data` without its leading whitespace (lemma TrimLeftShape). */
  function TrimLeft(data: seq<byte>): (r: seq<byte>)
    ensures |r| <= |data|
  {
    if |data| > 0 && IsSpace(data[0]) then TrimLeft(data[1..]) else data
  }

  /** `data` without its trailing whitespace (lemma TrimRightShape). */
  function TrimRight(data: seq<byte>): (r: seq<byte>)
    ensures |r| <= |data|
  {
    if |data| > 0 && IsSpace(data[|data| - 1]) then TrimRight(data[..|data| - 1]) else data
  }

  /** TrimLeft drops a run of whitespace from the front and nothing else. */
  lemma {:induction false} TrimLeftShape(data: seq<byte>)
    ensures TrimLeft(data) == data[|data| - |TrimLeft(data)|..]
    ensures forall k :: 0 <= k < |data| - |TrimLeft(data)| ==> IsSpace(data[k])
    ensures TrimLeft(data) == [] || !IsSpace(TrimLeft(data)[0])
  {
    if |data| > 0 && IsSpace(data[0]) {
      TrimLeftShape(data[1..]);
    }
  }

  /** TrimRight drops a run of whitespace from the back and nothing else. */
  lemma {:induction false} TrimRightShape(data: seq<byte>)
    ensures TrimRight(data) == data[..|TrimRight(data)|]
    ensures forall k :: |TrimRight(data)| <= k < |data| ==> IsSpace(data[k])
    ensures TrimRight(data) == [] || !IsSpace(TrimRight(data)[|TrimRight(data)| - 1])
  {
    if |data| > 0 && IsSpace(data[|data| - 1]) {
      TrimRightShape(data[..|data| - 1]);
    }
  }

  /** What `trimSpace` computes. */
  function Trimmed(data: seq<byte>): seq<byte>
  {
    TrimRight(TrimLeft(data))
  }

  /** The trimmed slice is the contiguous piece `data[start..end]`: every byte
      removed before or after it is whitespace, and its own first and last
      bytes are not. */
  lemma TrimmedShape(data: seq<byte>)
    ensures var start := |data| - |TrimLeft(data)|;
            var end := start + |Trimmed(data)|;
            && end <= |data|
            && Trimmed(data) == data[start..end]
            && (forall k :: 0 <= k < start ==> IsSpace(data[k]))
            && (forall k :: end <= k < |data| ==> IsSpace(data[k]))
            && (Trimmed(data) != [] ==>
                  !IsSpace(Trimmed(data)[0]) && !IsSpace(Trimmed(data)[|Trimmed(data)| - 1]))
  {
    var left := TrimLeft(data);
    TrimLeftShape(data);
    TrimRightShape(left);
    var start := |data| - |left|;
    var t := Trimmed(data);
    assert t == left[..|t|];
    forall k | start + |t| <= k < |data|
      ensures IsSpace(data[k])
    {
      assert data[k] == left[k - start];
    }
  }

  /** Trimming twice is trimming once. */
  lemma TrimmedIdempotent(data: seq<byte>)
    ensures Trimmed(Trimmed(data)) == Trimmed(data)
  {
    TrimmedShape(data);
    var t := Trimmed(data);
    assert TrimLeft(t) == t;
    assert TrimRight(t) == t;
  }

  /** An occurrence inside a slice is an occurrence in the whole. */
  lemma OccursInSlice(p: seq<byte>, start: nat, end: nat, sep: seq<byte>)
    requires start <= end <= |p|
    ensures forall j :: OccursAt(p[start..end], sep, j) ==> OccursAt(p, sep, start + j)
  {
    forall j | OccursAt(p[start..end], sep, j)
      ensures OccursAt(p, sep, start + j)
    {
      var q := p[start..end];
      forall k | 0 <= k < |sep|
        ensures p[start + j..start + j + |sep|][k] == sep[k]
      {
        assert q[j..j + |sep|][k] == sep[k];
      }
    }
  }

  /** Dropping one leading space does not change TrimLeft. */
  lemma TrimLeftStep(data: seq<byte>, start: nat)
    requires start < |data| && IsSpace(data[start])
    ensures TrimLeft(data[start..]) == TrimLeft(data[start + 1..])
  {
    assert data[start..][1..] == data[start + 1..];
  }

  /** Dropping one trailing space does not change TrimRight. */
  lemma TrimRightStep(data: seq<byte>, start: nat, end: nat)
    requires start < end <= |data| && IsSpace(data[end - 1])
    ensures TrimRight(data[start..end]) == TrimRight(data[start..end - 1])
  {
    assert data[start..end][..end - 1 - start] == data[start..end - 1];
  }

  /** `trimSpace`. */
  method TrimSpace(data: seq<byte>) returns (r: seq<byte>)
    ensures r == Trimmed(data)
  {
    var start := 0;
    var end := |data|;
    while start < end && IsSpace(data[start])
      invariant 0 <= start <= end == |data|
      invariant TrimLeft(data[start..]) == TrimLeft(data)
    {
      TrimLeftStep(data, start);
      start := start + 1;
    }
    assert data[start..end] == data[start..] == TrimLeft(data);
    while start < end && IsSpace(data[end - 1])
      invariant 0 <= start <= end <= |data|
      invariant TrimRight(data[start..end]) == Trimmed(data)
    {
      TrimRightStep(data, start, end);
      end := end - 1;
    }
    return data[start..end];
  }

  // ---------------------------------------------------------------------
  // Multi-document splitting

  /** The non-empty trimmed parts, in order. */
  function KeepTrimmed(parts: seq<seq<byte>>): seq<seq<byte>>
  {
    if |parts| == 0 then []
    else
      var t := Trimmed(parts[|parts| - 1]);
      KeepTrimmed(parts[..|parts| - 1]) + (if |t| > 0 then [t] else [])
  }

  /** What `splitYAMLDocuments` returns. */
  function Documents(data: seq<byte>): seq<seq<byte>>
  {
    KeepTrimmed(Split(data, Separator))
  }

  /** The documents are exactly the non-empty trimmed parts. */
  lemma {:induction false} KeepTrimmedMembers(parts: seq<seq<byte>>)
    ensures forall d :: d in KeepTrimmed(parts) <==> (d != [] && exists p :: p in parts && d == Trimmed(p))
  {
    if |parts| > 0 {
      var init := parts[..|parts| - 1];
      KeepTrimmedMembers(init);
      assert parts == init + [parts[|parts| - 1]];
    }
  }

  /** A separator-free piece, trimmed, is still separator-free, and when
      non-empty it begins and ends with a non-space byte. */
  lemma TrimmedPieceWellFormed(p: seq<byte>)
    requires !Contains(p, Separator)
    ensures var d := Trimmed(p);
            && !Contains(d, Separator)
            && (|d| > 0 ==> !IsSpace(d[0]) && !IsSpace(d[|d| - 1]))
  {
    TrimmedShape(p);
    var start := |p| - |TrimLeft(p)|;
    OccursInSlice(p, start, start + |Trimmed(p)|, Separator);
  }

  /** Every document is non-empty, begins and ends with a non-space byte and
      contains no separator; the documents are exactly the non-empty trimmed
      pieces between separators. */
  lemma DocumentsWellFormed(data: seq<byte>)
    ensures forall d :: d in Documents(data) <==>
              (d != [] && exists p :: p in Split(data, Separator) && d == Trimmed(p))
    ensures forall d :: d in Documents(data) ==>
              && |d| > 0
              && !IsSpace(d[0]) && !IsSpace(d[|d| - 1])
              && !Contains(d, Separator)
  {
    var parts := Split(data, Separator);
    KeepTrimmedMembers(parts);
    SplitPartsAreSeparatorFree(data, Separator);
    forall d | d in Documents(data)
      ensures |d| > 0 && !IsSpace(d[0]) && !IsSpace(d[|d| - 1]) && !Contains(d, Separator)
    {
      var p :| p in parts && d == Trimmed(p);
      TrimmedPieceWellFormed(p);
    }
  }

  /** A line held in the scan buffer has a line feed at most as its last
      byte, so its four bytes before the last are never `"\n---"`. */
  lemma NoSeparatorLine(lines: seq<byte>)
    requires forall k :: 0 <= k < |lines| - 1 ==> lines[k] != LineFeed
    ensures !(|lines| >= 5 && lines[|lines| - 5..|lines| - 1] == SeparatorLineHead)
  {
    if |lines| >= 5 {
      assert lines[|lines| - 5..|lines| - 1][0] == lines[|lines| - 5];
    }
  }

  /** The first, line-by-line loop of `splitYAMLDocuments`. It collects the
      input line by line into `current`, meaning to cut a document at each
      `"---"` line. The cut test reads four bytes of the buffered line before
      its last byte, and a buffered line holds a line feed only as its last
      byte, so the test never holds: the loop returns the whole input as
      one document, or nothing for an empty input. */
  method ScanSeparatorLines(data: seq<byte>) returns (docs: seq<seq<byte>>)
    ensures docs == if |data| > 0 then [data] else []
  {
    docs := [];
    var current: seq<byte> := [];
    var lines: seq<byte> := [];
    var i := 0;
    while i < |data|
      invariant 0 <= i <= |data|
      invariant docs == []
      invariant current + lines == data[..i]
      invariant forall k :: 0 <= k < |lines| ==> lines[k] != LineFeed
      invariant i == |data| && |data| > 0 ==> lines == []
    {
      var b := data[i];
      lines := lines + [b];
      if b == LineFeed || i == |data| - 1 {
        NoSeparatorLine(lines);
        if |lines| >= 5 && lines[|lines| - 5..|lines| - 1] == SeparatorLineHead {
          assert false;
        } else {
          current := current + lines;
          lines := [];
        }
      }
      i := i + 1;
    }
    assert data[..i] == data;
    if |current| > 0 {
      docs := docs + [current];
    }
  }

  /** `splitYAMLDocuments`. */
  method SplitYAMLDocuments(data: seq<byte>) returns (documents: seq<seq<byte>>)
    ensures documents == Documents(data)
  {
    // The result of the line-by-line loop is discarded, as in the source.
    var scanned := ScanSeparatorLines(data);
    var parts := SplitBytes(data, Separator);
    documents := [];
    var k := 0;
    while k < |parts|
      invariant 0 <= k <= |parts|
      invariant documents == KeepTrimmed(parts[..k])
    {
      var trimmed := TrimSpace(parts[k]);
      if |trimmed| > 0 {
        documents := documents + [trimmed];
      }
      assert parts[..k + 1][..k] == parts[..k];
      k := k + 1;
    }
    assert parts[..k] == parts;
  }
}
