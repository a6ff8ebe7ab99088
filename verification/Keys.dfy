/** Store keys built from segments: `prefix`, `segment`, "/", rest. */
module Keys {

  predicate HasPrefix(s: string, p: string) {
    |p| <= |s| && s[..|p|] == p
  }

  ghost predicate SlashFree(s: string) {
    forall i :: 0 <= i < |s| ==> s[i] != '/'
  }

  lemma PrefixOfConcat(p: string, rest: string)
    ensures HasPrefix(p + rest, p) && (p + rest)[|p|..] == rest
  {
  }

  lemma PrefixSplits(s: string, p: string)
    requires HasPrefix(s, p)
    ensures s == p + s[|p|..]
  {
  }

  /** A slash-free first segment can be read back from a key. */
  lemma SegmentUnique(p: string, a: string, x: string, b: string, y: string)
    requires SlashFree(a) && SlashFree(b)
    requires p + a + "/" + x == p + b + "/" + y
    ensures a == b && x == y
  {
    var k, l := p + a + "/" + x, p + b + "/" + y;
    assert k[|p| + |a|] == '/' && l[|p| + |b|] == '/';
    assert |a| == |b|;
    assert k[|p|..|p| + |a|] == a && l[|p|..|p| + |b|] == b;
    assert k[|p| + |a| + 1..] == x && l[|p| + |b| + 1..] == y;
  }

  /** A key with segment `b` lies under the segment `a` only if they are the same. */
  lemma UnderSegment(p: string, a: string, b: string, y: string)
    requires SlashFree(a) && SlashFree(b)
    requires HasPrefix(p + b + "/" + y, p + a + "/")
    ensures a == b
  {
    var k := p + b + "/" + y;
    PrefixSplits(k, p + a + "/");
    assert k == p + a + "/" + k[|p + a + "/"|..];
    SegmentUnique(p, a, k[|p + a + "/"|..], b, y);
  }
}
