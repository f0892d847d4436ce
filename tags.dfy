/**
  The struct-tag mini-language shared by the `jschema` and `json` tags:
  a tag reads `name,opt1,opt2,...`. `ParseTag` splits off the name and
  `Contains` tests the option list for one option.
 */
module Tags {

  /** The option that keeps a field out of `required` and out of the id and description harvest. */
  const OmitEmpty: string := "omitempty"

  /** The option name is a single, non-empty segment. */
  lemma OmitEmptyIsPlain()
    ensures ',' !in OmitEmpty && OmitEmpty != ""
  {
  }

  /** Index of the first occurrence of `c` in `s`, or -1 (Go's `strings.Index` for a one-character needle). */
  function IndexOf(s: string, c: char): (r: int)
    ensures r == -1 <==> c !in s
    ensures r != -1 ==> 0 <= r < |s| && s[r] == c && forall j :: 0 <= j < r ==> s[j] != c
  {
    if |s| == 0 then -1
    else if s[0] == c then 0
    else
      var i := IndexOf(s[1..], c);
      if i == -1 then -1 else i + 1
  }

  /** A string is the text before position `i`, the character at `i`, and the text after it. */
  lemma SplitAround(s: string, i: nat)
    requires i < |s|
    ensures s == s[..i] + [s[i]] + s[i + 1..]
  {
    assert s[..i] + [s[i]] == s[..i + 1];
  }

  /**
    Splits a tag on its first comma into the name and the option text.
    A tag without a comma is all name, with no options.
   */
  function ParseTag(tag: string): (string, string) {
    var idx := IndexOf(tag, ',');
    if idx != -1 then (tag[..idx], tag[idx + 1..]) else (tag, "")
  }

  /**
    With a comma, the name is the comma-free text before the first comma and
    the options are everything after it; without one, the tag is all name.
   */
  lemma ParseTagSplits(tag: string)
    ensures ',' in tag ==> ',' !in TagName(tag) && TagName(tag) + "," + TagOptions(tag) == tag
    ensures ',' !in tag ==> TagName(tag) == tag && TagOptions(tag) == ""
  {
    var idx := IndexOf(tag, ',');
    if idx != -1 {
      SplitAround(tag, idx);
    }
  }

  /** The name part of a tag. */
  function TagName(tag: string): string {
    ParseTag(tag).0
  }

  /** The option part of a tag. */
  function TagOptions(tag: string): string {
    ParseTag(tag).1
  }

  /** A tag's option text is shorter than the tag, unless the tag is empty. */
  lemma OptionsShorter(tag: string)
    requires tag != ""
    ensures |TagOptions(tag)| < |tag|
  {
  }

  /**
    The option test as the scanning loop decides it: the text is cut at its
    first comma, the piece before it is compared, and the scan goes on with
    the piece after it until no text is left. An empty final segment (after a
    trailing comma, or the whole of an empty text) is never compared.
   */
  predicate HasOption(opts: string, name: string)
    decreases |opts|
  {
    opts != "" && (TagName(opts) == name || (OptionsShorter(opts); HasOption(TagOptions(opts), name)))
  }

  /**
    `tagOptions.Contains`: walks the option text segment by segment, as the
    source does, and answers whether `optionName` is one of them.
   */
  method Contains(opts: string, optionName: string) returns (b: bool)
    ensures b <==> HasOption(opts, optionName)
  {
    if |opts| == 0 {
      return false;
    }
    var s := opts;
    while s != ""
      invariant HasOption(opts, optionName) <==> HasOption(s, optionName)
      decreases |s|
    {
      ghost var text := s;
      var next := "";
      var i := IndexOf(s, ',');
      if i >= 0 {
        s, next := s[..i], s[i + 1..];
      }
      assert s == TagName(text) && next == TagOptions(text);
      if s == optionName {
        return true;
      }
      s := next;
    }
    return false;
  }

  /** The comma-separated segments of `s`; there is always at least one (possibly empty) segment. */
  function Split(s: string): (segs: seq<string>)
    ensures |segs| >= 1
    decreases |s|
  {
    var i := IndexOf(s, ',');
    if i == -1 then [s] else [s[..i]] + Split(s[i + 1..])
  }

  /** Joins segments back together, with a comma between neighbours. */
  function Join(segs: seq<string>): string
    requires |segs| >= 1
  {
    if |segs| == 1 then segs[0] else segs[0] + "," + Join(segs[1..])
  }

  /** The option test stated on the list of segments: any segment but an empty last one. */
  predicate InSegments(opts: string, name: string) {
    Listed(Split(opts), name)
  }

  /** `name` is one of the segments, an empty last segment aside. */
  predicate Listed(segs: seq<string>, name: string) {
    exists k :: 0 <= k < |segs| && segs[k] == name && (k < |segs| - 1 || name != "")
  }

  /** A segment list with a head is listed through its head or through its tail. */
  lemma ListedCons(head: string, tail: seq<string>, name: string)
    requires |tail| >= 1
    ensures Listed([head] + tail, name) <==> head == name || Listed(tail, name)
  {
    var segs := [head] + tail;
    if Listed(tail, name) {
      var k :| 0 <= k < |tail| && tail[k] == name && (k < |tail| - 1 || name != "");
      assert segs[k + 1] == name;
    }
    if head == name {
      assert segs[0] == name;
    }
    if Listed(segs, name) && head != name {
      var k :| 0 <= k < |segs| && segs[k] == name && (k < |segs| - 1 || name != "");
      assert k > 0 && tail[k - 1] == name;
    }
  }

  /** The name of a tag is its first segment and the options are the remaining segments. */
  lemma ParseTagSegments(tag: string)
    ensures TagName(tag) == Split(tag)[0]
    ensures ',' in tag ==> Split(tag) == [TagName(tag)] + Split(TagOptions(tag))
    ensures ',' !in tag ==> Split(tag) == [tag] && TagOptions(tag) == ""
  {
  }

  /** A text with a comma has its name among the segments exactly when it is the first segment or one of the option text's. */
  lemma InSegmentsAtComma(opts: string, name: string)
    requires ',' in opts
    ensures InSegments(opts, name) <==> TagName(opts) == name || InSegments(TagOptions(opts), name)
  {
    ParseTagSegments(opts);
    ListedCons(TagName(opts), Split(TagOptions(opts)), name);
  }

  /** A non-empty text without a comma is its one segment. */
  lemma InSegmentsNoComma(opts: string, name: string)
    requires ',' !in opts && opts != ""
    ensures InSegments(opts, name) <==> opts == name
  {
    ParseTagSegments(opts);
    if opts == name {
      assert Split(opts)[0] == name;
    }
  }

  /** The scan and the segment list agree on every text and every name. */
  lemma {:induction false} HasOptionInSegments(opts: string, name: string)
    ensures HasOption(opts, name) <==> InSegments(opts, name)
    decreases |opts|
  {
    if opts == "" {
      assert Split(opts) == [""];
    } else if ',' !in opts {
      ParseTagSegments(opts);
      InSegmentsNoComma(opts, name);
    } else {
      OptionsShorter(opts);
      HasOptionInSegments(TagOptions(opts), name);
      InSegmentsAtComma(opts, name);
    }
  }

  /** No segment contains a comma. */
  lemma {:induction false} SplitCommaFree(s: string)
    ensures forall k :: 0 <= k < |Split(s)| ==> ',' !in Split(s)[k]
    decreases |s|
  {
    var i := IndexOf(s, ',');
    if i != -1 {
      SplitCommaFree(s[i + 1..]);
    }
  }

  /** Splitting and joining are inverse: no text is lost or added. */
  lemma {:induction false} JoinSplit(s: string)
    ensures Join(Split(s)) == s
    decreases |s|
  {
    var i := IndexOf(s, ',');
    if i != -1 {
      var head, rest := s[..i], s[i + 1..];
      JoinSplit(rest);
      var segs := Split(s);
      assert segs == [head] + Split(rest);
      assert segs[1..] == Split(rest);
      assert Join(segs) == head + "," + rest;
      SplitAround(s, i);
    }
  }

  /** A tag that starts with a comma has an empty name; everything after the comma is options. */
  lemma ParseTagNameless(opts: string)
    ensures ParseTag("," + opts) == ("", opts)
  {
    assert ("," + opts)[0] == ',';
    assert ("," + opts)[1..] == opts;
  }

  /** Parsing undoes writing a tag: `name,opts` with a comma-free name parses back to (name, opts). */
  lemma ParseTagJoin(name: string, opts: string)
    requires ',' !in name
    ensures ParseTag(name + "," + opts) == (name, opts)
  {
    var s := name + "," + opts;
    var i := IndexOf(s, ',');
    assert s[|name|] == ',';
    assert i == |name|;
    assert s[..i] == name && s[i + 1..] == opts;
  }

  /** An option text without commas is a single option. */
  lemma SingleOption(opts: string, name: string)
    requires ',' !in opts
    ensures HasOption(opts, name) <==> opts == name && name != ""
  {
    assert TagName(opts) == opts && TagOptions(opts) == "";
  }

  /** Empty options contain nothing, not even the empty name. */
  lemma EmptyOptionsContainNothing(name: string)
    ensures !HasOption("", name)
  {
  }

  /**
    For a non-empty name the option test is plain membership in the list of
    segments; a name with a comma is never found.
   */
  lemma HasOptionIsMembership(opts: string, name: string)
    ensures name != "" ==> (HasOption(opts, name) <==> name in Split(opts))
    ensures ',' in name ==> !HasOption(opts, name)
  {
    HasOptionInSegments(opts, name);
    SplitCommaFree(opts);
    if name != "" && name in Split(opts) {
      var k :| 0 <= k < |Split(opts)| && Split(opts)[k] == name;
    }
  }
}
