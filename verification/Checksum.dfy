/** `scheme.pb.sha256` files: reading the digest and replacing it in place. */
module Checksum {
  import opened Wrappers
  import opened PythonText
  import opened SchemeScan

  /** An object body.  Decoding UTF-8 and encoding it again are inverse to each other, so a
      body is either the text it decodes to or bytes that do not decode. */
  datatype Body = Utf8(text: string) | Undecodable(bytes: seq<bv8>)

  const SCHEME_NAME := "scheme.pb"

  function SkipSpace(text: string, i: nat): (r: nat)
    requires i <= |text|
    ensures i <= r <= |text|
    ensures forall k :: i <= k < r ==> IsSpace(text[k])
    ensures r < |text| ==> !IsSpace(text[r])
    decreases |text| - i
  {
    if i < |text| && IsSpace(text[i]) then SkipSpace(text, i + 1) else i
  }

  function TokenEnd(text: string, i: nat): (r: nat)
    requires i <= |text|
    ensures i <= r <= |text|
    ensures forall k :: i <= k < r ==> !IsSpace(text[k])
    ensures r < |text| ==> IsSpace(text[r])
    decreases |text| - i
  {
    if i < |text| && !IsSpace(text[i]) then TokenEnd(text, i + 1) else i
  }

  predicate AllHex(s: string) {
    forall k :: 0 <= k < |s| ==> IsHexDigit(s[k])
  }

  /** A digest as `hexdigest` prints it. */
  predicate IsDigest(s: string) {
    |s| == 64 && forall k :: 0 <= k < |s| ==> '0' <= s[k] <= '9' || 'a' <= s[k] <= 'f'
  }

  function LowerHex(s: string): string {
    seq(|s|, i requires 0 <= i < |s| => if 'A' <= s[i] <= 'F' then (s[i] as int + 32) as char else s[i])
  }

  function ParseChecksum(content: Body): Option<string> {
    match content
    case Undecodable(_) => None
    case Utf8(text) =>
      var i := SkipSpace(text, 0);
      var token := text[i..TokenEnd(text, i)];
      if |token| == 64 && AllHex(token) then Some(LowerHex(token)) else None
  }

  function Replaced(original: Body, digest: string): Body {
    var text := if original.Utf8? then original.text else "";
    var split := TokenEnd(text, 0);
    if split > 0 && AllHex(text[..split]) then Utf8(digest + text[split..])
    else Utf8(digest + " " + SCHEME_NAME)
  }

  method ReplaceChecksum(original: Body, digest: string) returns (r: Option<Body>)
    ensures r == if IsDigest(digest) then Some(Replaced(original, digest)) else None
  {
    if |digest| != 64 || exists k :: 0 <= k < |digest| && !('0' <= digest[k] <= '9' || 'a' <= digest[k] <= 'f') {
      return None;
    }
    var text := if original.Utf8? then original.text else "";
    var splitAt := |text|;
    for index := 0 to |text|
      invariant splitAt == |text|
      invariant TokenEnd(text, 0) == TokenEnd(text, index)
    {
      if IsSpace(text[index]) {
        splitAt := index;
        break;
      }
    }
    var head := text[..splitAt];
    if head != "" && forall k :: 0 <= k < |head| ==> IsHexDigit(head[k]) {
      return Some(Utf8(digest + text[splitAt..]));
    }
    return Some(Utf8(digest + " " + SCHEME_NAME));
  }

  lemma {:induction false} TokenRun(text: string, i: nat, j: nat)
    requires i <= j <= |text|
    requires forall k :: i <= k < j ==> !IsSpace(text[k])
    requires j < |text| ==> IsSpace(text[j])
    ensures TokenEnd(text, i) == j
    decreases j - i
  {
    if i < j {
      TokenRun(text, i + 1, j);
    }
  }

  lemma DigestLeads(digest: string, tail: string)
    requires IsDigest(digest)
    requires tail != "" ==> IsSpace(tail[0])
    ensures TokenEnd(digest + tail, 0) == 64
    ensures ParseChecksum(Utf8(digest + tail)) == Some(digest)
  {
    var text := digest + tail;
    assert forall k :: 0 <= k < 64 ==> text[k] == digest[k] && !IsSpace(text[k]);
    assert |text| > 64 ==> text[64] == tail[0];
    TokenRun(text, 0, 64);
    assert SkipSpace(text, 0) == 0;
    assert text[0..64] == digest;
    assert LowerHex(digest) == digest;
  }

  /** For every original file and every digest, reading the replaced file gives back that
      digest: the self-check of `_write_checksum` never fails. */
  lemma ParseReplaced(original: Body, digest: string)
    requires IsDigest(digest)
    ensures ParseChecksum(Replaced(original, digest)) == Some(digest)
  {
    var text := if original.Utf8? then original.text else "";
    var split := TokenEnd(text, 0);
    if split > 0 && AllHex(text[..split]) {
      DigestLeads(digest, text[split..]);
    } else {
      assert digest + " " + SCHEME_NAME == digest + (" " + SCHEME_NAME);
      DigestLeads(digest, " " + SCHEME_NAME);
    }
  }

  /** A file with a hex head keeps everything after the head; replacing the digest again
      only changes the digest, so the file remembers nothing of digests written before. */
  lemma ReplacedKeepsTail(original: Body, head: string, tail: string, first: string, second: string)
    requires original == Utf8(head + tail)
    requires head != "" && AllHex(head) && (tail != "" ==> IsSpace(tail[0]))
    requires IsDigest(first) && IsDigest(second)
    ensures Replaced(original, first) == Utf8(first + tail)
    ensures Replaced(Replaced(original, first), second) == Replaced(original, second)
  {
    HeadEnds(head, tail);
    HeadEnds(first, tail);
    HeadEnds(second, tail);
  }

  lemma HeadEnds(head: string, tail: string)
    requires head != "" && AllHex(head) && (tail != "" ==> IsSpace(tail[0]))
    ensures TokenEnd(head + tail, 0) == |head|
    ensures (head + tail)[..|head|] == head && (head + tail)[|head|..] == tail
  {
    var text := head + tail;
    assert forall k :: 0 <= k < |head| ==> text[k] == head[k] && !IsSpace(text[k]);
    assert tail != "" ==> text[|head|] == tail[0];
    TokenRun(text, 0, |head|);
  }
}
