/** Bounded previews of the files a session has written, for the model's context. */
module Previews {
  import opened Basics
  import opened FileSystem
  import Utf8

  const CURRENT_FILE_PREVIEW_BUDGET_BYTES: nat := 4096

  datatype Preview = Preview(path: string, sha256: string, byteCount: nat, truncated: bool, text: string)

  /** The UTF-8 lengths of the previews, together. */
  function Total(previews: seq<Preview>): nat {
    if previews == [] then 0 else Utf8.Length(previews[0].text) + Total(previews[1..])
  }

  lemma {:induction false} TotalOfAppended(previews: seq<Preview>, p: Preview)
    ensures Total(previews + [p]) == Total(previews) + Utf8.Length(p.text)
  {
    if previews == [] {
      assert [p][1..] == [] && Total([p]) == Utf8.Length(p.text) + Total([]);
      assert previews + [p] == [p];
    } else {
      assert (previews + [p])[1..] == previews[1..] + [p];
      TotalOfAppended(previews[1..], p);
    }
  }

  /** What a preview of a content shows under a budget: its longest prefix that fits. */
  ghost predicate Shows(p: Preview, content: string, budget: nat) {
    && p.text <= content && Utf8.Length(p.text) <= budget
    && p.byteCount == |Utf8.Encode(content)|
    && (p.truncated <==> p.text != content)
    && (p.truncated ==> budget < Utf8.Length(p.text) + Utf8.Width(content[|p.text|]))
  }

  /** The preview of one content. */
  method One(path: string, sha256: string, content: string, budget: nat) returns (p: Preview)
    ensures p.path == path && p.sha256 == sha256 && Shows(p, content, budget)
  {
    var raw := Utf8.Encode(content);
    var cut := raw[..if budget <= |raw| then budget else |raw|];
    ghost var k := Utf8.CutDecodes(content, |cut|);
    var text := Utf8.Decode(cut);
    assert text == content[..k];
    Utf8.EncodedLength(content);
    Utf8.EncodedLength(text);
    if k < |content| { Utf8.LengthOfPrefix(content, k + 1); } else { assert content[..k] == content; }
    p := Preview(path, sha256, |raw|, |Utf8.Encode(text)| < |raw|, text);
  }

  /** Preview `i` is of a known file, and shows it under the budget that the ones before it left over. */
  ghost predicate Follows(previews: seq<Preview>, i: nat, hashes: map<string, string>, contents: map<string, string>)
    requires i < |previews|
  {
    var p, used := previews[i], Total(previews[..i]);
    && p.path in contents && p.path in hashes && p.sha256 == hashes[p.path]
    && used <= CURRENT_FILE_PREVIEW_BUDGET_BYTES
    && Shows(p, contents[p.path], CURRENT_FILE_PREVIEW_BUDGET_BYTES - used)
  }

  lemma FollowsStill(previews: seq<Preview>, p: Preview, hashes: map<string, string>, contents: map<string, string>)
    requires forall i :: 0 <= i < |previews| ==> Follows(previews, i, hashes, contents)
    ensures forall i :: 0 <= i < |previews| ==> Follows(previews + [p], i, hashes, contents)
  {
    forall i | 0 <= i < |previews| ensures Follows(previews + [p], i, hashes, contents) {
      assert (previews + [p])[..i] == previews[..i];
      assert Follows(previews, i, hashes, contents);
    }
  }

  /** The first `k` paths, without those of which no content is known. */
  function Known(paths: seq<string>, k: nat, contents: map<string, string>): seq<string>
    requires k <= |paths|
  {
    if k == 0 then []
    else Known(paths, k - 1, contents) + if paths[k - 1] in contents then [paths[k - 1]] else []
  }

  function PathsOf(previews: seq<Preview>): seq<string> {
    seq(|previews|, i requires 0 <= i < |previews| => previews[i].path)
  }

  function NotBelowZero(x: int): nat { if x < 0 then 0 else x }

  /** _current_file_previews. `paths` are those of the known files, sorted. */
  method CurrentFilePreviews(paths: seq<string>, hashes: map<string, string>, contents: map<string, string>)
    returns (previews: seq<Preview>)
    requires forall p <- paths :: p in hashes
    ensures Total(previews) <= CURRENT_FILE_PREVIEW_BUDGET_BYTES
    ensures forall i :: 0 <= i < |previews| ==> Follows(previews, i, hashes, contents)
    // One preview for each path with a known content, in the order of the paths.
    ensures PathsOf(previews) == Known(paths, |paths|, contents)
  {
    previews := [];
    var remaining: nat := CURRENT_FILE_PREVIEW_BUDGET_BYTES;
    for k := 0 to |paths|
      invariant remaining + Total(previews) == CURRENT_FILE_PREVIEW_BUDGET_BYTES
      invariant forall i :: 0 <= i < |previews| ==> Follows(previews, i, hashes, contents)
      invariant PathsOf(previews) == Known(paths, k, contents)
    {
      var path := paths[k];
      if path in contents {
        var p := One(path, hashes[path], contents[path], remaining);
        TotalOfAppended(previews, p);
        FollowsStill(previews, p, hashes, contents);
        assert (previews + [p])[..|previews|] == previews;
        Utf8.EncodedLength(p.text);
        remaining := NotBelowZero(remaining - |Utf8.Encode(p.text)|);
        assert PathsOf(previews + [p]) == PathsOf(previews) + [path];
        previews := previews + [p];
      }
    }
  }

  /** A truncated preview leaves at most three bytes of its budget unused. */
  lemma LittleIsWasted(p: Preview, content: string, budget: nat)
    requires Shows(p, content, budget) && p.truncated
    ensures |p.text| < |content| && budget - Utf8.Length(p.text) <= 3
  {
    assert p.text == content[..|p.text|];
  }
}
