/**
 * Container image references (pkg/image).
 *
 * `Parse` hands the text to the registry reference parser and keeps its
 * name and tag, defaulting the tag to "latest". The parser's grammar is not
 * part of this model: whether a text is a canonical reference is the
 * `valid` oracle. How a valid reference splits into name and tag is written
 * out on the text itself (`SplitName`), following the reference syntax
 * `name[:tag][@digest]`, where a colon followed later by a `/` belongs to a
 * registry port and not to a tag.
 */
module Image {
  import opened Results

  /** `image.Reference`: a repository name and a tag. */
  datatype Reference = Reference(image: string, tag: string) {
    /** `Reference.String`: name and tag joined by a colon (lemma
        SplitNameOfString reads them back). */
    function String(): string {
      image + ":" + tag
    }
  }

  /** The error `Parse` passes on from the reference parser. */
  datatype ParseError = InvalidReference(input: string)

  /** Go's `(Reference, error)` pair: the error and the zero Reference on failure. */
  datatype Parsed = Parsed(ref: Reference, err: Option<ParseError>)

  const DefaultTag: string := "latest"

  /** The offset of the first `c` in `s`, or -1. */
  function FirstIndex(s: string, c: char): (r: int)
    ensures -1 <= r < |s|
    ensures r >= 0 ==> s[r] == c && c !in s[..r]
    ensures r == -1 <==> c !in s
  {
    if |s| == 0 then -1
    else if s[0] == c then 0
    else
      var r := FirstIndex(s[1..], c);
      assert s[1..][..if r < 0 then 0 else r] == s[1..1 + (if r < 0 then 0 else r)];
      if r < 0 then -1 else r + 1
  }

  /** The offset of the last `c` in `s`, or -1. */
  function LastIndex(s: string, c: char): (r: int)
    ensures -1 <= r < |s|
    ensures r >= 0 ==> s[r] == c && c !in s[r + 1..]
    ensures r == -1 <==> c !in s
  {
    if |s| == 0 then -1
    else if s[|s| - 1] == c then |s| - 1
    else
      var r := LastIndex(s[..|s| - 1], c);
      assert r >= 0 ==> s[r + 1..] == s[..|s| - 1][r + 1..] + [s[|s| - 1]];
      r
  }

  /** The reference without its `@digest` part. */
  function WithoutDigest(s: string): string {
    var at := FirstIndex(s, '@');
    if at < 0 then s else s[..at]
  }

  /** The name and, when present, the tag of a reference text. */
  function SplitName(s: string): (string, Option<string>) {
    var body := WithoutDigest(s);
    var c := LastIndex(body, ':');
    if c >= 0 && '/' !in body[c + 1..] then (body[..c], Some(body[c + 1..]))
    else (body, None)
  }

  /** `Parse`. */
  function Parse(valid: string -> bool, s: string): (p: Parsed)
    ensures p.err.Some? <==> !valid(s)
    ensures p.err.Some? ==> p.ref == Reference("", "")
    ensures p.err.None? && SplitName(s).1.None? ==> p.ref.tag == DefaultTag
  {
    if !valid(s) then Parsed(Reference("", ""), Some(InvalidReference(s)))
    else
      var (name, tag) := SplitName(s);
      Parsed(Reference(name, if tag.Some? then tag.value else DefaultTag), None)
  }

  /** The text of a tagged reference without digest splits back into the
      name and the tag it was written from. */
  lemma SplitNameOfString(r: Reference)
    requires ':' !in r.tag && '/' !in r.tag && '@' !in r.String()
    ensures SplitName(r.String()) == (r.image, Some(r.tag))
  {
    var s := r.String();
    assert WithoutDigest(s) == s;
    var c := LastIndex(s, ':');
    assert s[|r.image|] == ':';
    assert s[|r.image| + 1..] == r.tag;
    assert c == |r.image|;
    assert s[..c] == r.image;
  }

  /** Round trip: a valid tagged reference without digest prints back as
      itself. */
  lemma ParseStringRoundTrip(valid: string -> bool, s: string)
    requires valid(s) && '@' !in s && SplitName(s).1.Some?
    ensures Parse(valid, s).err.None?
    ensures Parse(valid, s).ref.String() == s
  {
    var c := LastIndex(s, ':');
    assert WithoutDigest(s) == s;
    assert s[..c] + ":" + s[c + 1..] == s;
  }

  /** A valid untagged reference gets the default tag and prints as its
      name followed by ":latest". */
  lemma ParseUntagged(valid: string -> bool, s: string)
    requires valid(s) && SplitName(s).1.None?
    ensures Parse(valid, s).ref == Reference(WithoutDigest(s), DefaultTag)
    ensures '@' !in s ==> Parse(valid, s).ref.String() == s + ":" + DefaultTag
  {
    var name := WithoutDigest(s);
    assert SplitName(s).0 == name;
    assert '@' !in s ==> name == s;
  }

  /** A registry port stays in the name: the text of the reference named
      "localhost:5000/myimage" with tag "dev" parses back into that name and
      tag, although the name holds a colon. */
  lemma ParseKeepsRegistryPort(valid: string -> bool)
    requires valid(Reference("localhost:5000/myimage", "dev").String())
    ensures Parse(valid, Reference("localhost:5000/myimage", "dev").String()).ref
            == Reference("localhost:5000/myimage", "dev")
  {
    var r := Reference("localhost:5000/myimage", "dev");
    assert ':' !in r.tag && '/' !in r.tag && '@' !in r.tag;
    assert '@' !in r.image by {
      assert forall i :: 0 <= i < |r.image| ==> r.image[i] != '@';
    }
    assert '@' !in r.String();
    SplitNameOfString(r);
  }

  predicate IsUpper(c: char) {
    'A' <= c <= 'Z'
  }

  /** Two rules of the reference grammar that the oracle is assumed to
      keep: the name is not empty, and a reference without `/` has no
      domain part, so none of its letters may be upper case. */
  predicate KeepsGrammarRules(s: string) {
    && |SplitName(s).0| > 0
    && ('/' !in s ==> forall i :: 0 <= i < |s| ==> !IsUpper(s[i]))
  }

  /** Under an oracle that keeps those rules, the empty text is rejected. */
  lemma ParseRejectsEmpty(valid: string -> bool)
    requires forall s :: valid(s) ==> KeepsGrammarRules(s)
    ensures Parse(valid, "").err.Some?
  {
    assert SplitName("").0 == "";
  }

  /** Under an oracle that keeps those rules, a bare tag is rejected. */
  lemma ParseRejectsBareTag(valid: string -> bool)
    requires forall s :: valid(s) ==> KeepsGrammarRules(s)
    ensures Parse(valid, ":v1.0").err.Some?
  {
    var bare := ":v1.0";
    assert '@' !in bare by {
      assert forall i :: 0 <= i < |bare| ==> bare[i] != '@';
    }
    assert WithoutDigest(bare) == bare;
    assert ':' !in bare[1..] by {
      assert forall i :: 1 <= i < |bare| ==> bare[i] != ':';
    }
    assert LastIndex(bare, ':') == 0;
    assert SplitName(bare).0 == "";
  }

  /** Under an oracle that keeps those rules, an upper-case name is rejected. */
  lemma ParseRejectsUpperCase(valid: string -> bool)
    requires forall s :: valid(s) ==> KeepsGrammarRules(s)
    ensures Parse(valid, "UPPERCASE:tag").err.Some?
  {
    var upper := "UPPERCASE:tag";
    assert !KeepsGrammarRules(upper) by {
      assert '/' !in upper;
      assert IsUpper(upper[0]);
    }
  }
}
