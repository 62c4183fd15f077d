/** Recognising a YouTube link in free text (detect_platform).

    The source searches the text, unanchored and ignoring case, for
      (https?://)?(www\.)?(m\.)?(youtube\.com|youtu\.be)/
      (watch\?v=ID|shorts/ID|embed/ID|v/ID|ID)      with ID = [\w\-]{11}.
    The scheme, "www." and "m." groups are optional and the search is
    unanchored, so a match exists exactly when a host, a slash, one of the
    five path shapes and eleven id characters occur somewhere in the text.
    That occurrence is the declarative reading `ContainsLink`; `Detect` is a
    hand-written matcher proved equivalent to it. */
module LinkDetection {

  import opened Wrappers
  import opened Text

  const YouTube: string := "youtube"

  const Hosts: seq<string> := ["youtube.com", "youtu.be"]

  /** The five path shapes; the last, empty one is the bare-id form. */
  const Paths: seq<string> := ["watch?v=", "shorts/", "embed/", "v/", ""]

  const IdLength: nat := 11

  /** `[\w\-]` within ASCII. */
  predicate IsIdChar(c: char) {
    'a' <= c <= 'z' || 'A' <= c <= 'Z' || '0' <= c <= '9' || c == '_' || c == '-'
  }

  /** The lower-case literal lit occurs in t at position i, ignoring case. */
  predicate LiteralAt(t: string, i: nat, lit: string) {
    i + |lit| <= |t| && forall k :: 0 <= k < |lit| ==> LowerChar(t[i + k]) == lit[k]
  }

  /** Eleven id characters start at position i of t. */
  predicate IdAt(t: string, i: nat) {
    i + IdLength <= |t| && forall k :: i <= k < i + IdLength ==> IsIdChar(t[k])
  }

  /** The length of the link made of host h and path shape p. */
  function LinkLength(h: nat, p: nat): nat
    requires h < |Hosts| && p < |Paths|
  {
    |Hosts[h]| + 1 + |Paths[p]| + IdLength
  }

  /** A link of host h and path shape p starts at position i of t. */
  predicate ShapeAt(t: string, i: nat, h: nat, p: nat)
    requires h < |Hosts| && p < |Paths|
  {
    LiteralAt(t, i, Hosts[h] + "/" + Paths[p]) && IdAt(t, i + |Hosts[h]| + 1 + |Paths[p]|)
  }

  ghost predicate LinkAt(t: string, i: nat) {
    exists h: nat, p: nat :: h < |Hosts| && p < |Paths| && ShapeAt(t, i, h, p)
  }

  /** The regular expression has a match somewhere in t. */
  ghost predicate ContainsLink(t: string) {
    exists i: nat :: i <= |t| && LinkAt(t, i)
  }

  // ---------------------------------------------------------------------
  // The matcher

  function MatchLiteral(t: string, i: nat, lit: string): (b: bool)
    ensures b == LiteralAt(t, i, lit)
    decreases lit
  {
    if lit == [] then i <= |t|
    else i < |t| && LowerChar(t[i]) == lit[0] && MatchLiteral(t, i + 1, lit[1..])
  }

  function MatchId(t: string, i: nat, n: nat): (b: bool)
    ensures b == (i + n <= |t| && forall k :: i <= k < i + n ==> IsIdChar(t[k]))
    decreases n
  {
    if n == 0 then i <= |t| else i < |t| && IsIdChar(t[i]) && MatchId(t, i + 1, n - 1)
  }

  /** Path shape q, then an id, starts at position j. */
  predicate PathAt(t: string, j: nat, q: nat)
    requires q < |Paths|
  {
    LiteralAt(t, j, Paths[q]) && IdAt(t, j + |Paths[q]|)
  }

  /** One of the path shapes from the p-th on, then an id, starts at j. */
  ghost predicate PathFrom(t: string, j: nat, p: nat) {
    exists q: nat :: p <= q < |Paths| && PathAt(t, j, q)
  }

  lemma PathFromStep(t: string, j: nat, p: nat)
    ensures p >= |Paths| ==> !PathFrom(t, j, p)
    ensures p < |Paths| ==> (PathFrom(t, j, p) <==> PathAt(t, j, p) || PathFrom(t, j, p + 1))
  {
    if p < |Paths| && PathFrom(t, j, p) {
      var q: nat :| p <= q < |Paths| && PathAt(t, j, q);
      if q > p {
        assert p + 1 <= q;
      }
    }
  }

  /** Tries the path shapes from the p-th on at position j;
      MatchPaths(t, j, 0) tries all five. */
  function MatchPaths(t: string, j: nat, p: nat): (b: bool)
    requires p <= |Paths|
    ensures b == PathFrom(t, j, p)
    decreases |Paths| - p
  {
    PathFromStep(t, j, p);
    if p == |Paths| then false
    else
      var here := MatchLiteral(t, j, Paths[p]) && MatchId(t, j + |Paths[p]|, IdLength);
      assert here == PathAt(t, j, p);
      here || MatchPaths(t, j, p + 1)
  }

  /** Host h, a slash and a path shape with its id start at position i. */
  function MatchHost(t: string, i: nat, h: nat): bool
    requires h < |Hosts|
  {
    MatchLiteral(t, i, Hosts[h] + "/") && MatchPaths(t, i + |Hosts[h]| + 1, 0)
  }

  function MatchAt(t: string, i: nat): bool {
    MatchHost(t, i, 0) || MatchHost(t, i, 1)
  }

  /** A link starts at some position from i on. */
  ghost predicate LinkFrom(t: string, i: nat) {
    exists j: nat :: i <= j <= |t| && LinkAt(t, j)
  }

  /** Past the end of the text no link starts; before it, one starts from i
      on iff one starts at i or from i + 1 on. */
  lemma LinkFromStep(t: string, i: nat)
    ensures i >= |t| ==> !LinkFrom(t, i)
    ensures i < |t| ==> (LinkFrom(t, i) <==> LinkAt(t, i) || LinkFrom(t, i + 1))
  {
    if i >= |t| {
      forall j: nat | i <= j <= |t| ensures !LinkAt(t, j) { LinkAtFits(t, j); }
    } else if LinkFrom(t, i) {
      var j: nat :| i <= j <= |t| && LinkAt(t, j);
      if j > i {
        assert i + 1 <= j;
      }
    }
  }

  /** Tries every start position from i on, as re.search does. */
  function SearchFrom(t: string, i: nat): (b: bool)
    ensures b == LinkFrom(t, i)
    decreases |t| - i
  {
    LinkFromStep(t, i);
    if i >= |t| then false
    else
      MatchAtIsLinkAt(t, i);
      MatchAt(t, i) || SearchFrom(t, i + 1)
  }

  /** detect_platform: "youtube" when the text holds a link, None otherwise. */
  function Detect(text: string): (r: Option<string>)
    ensures r == None || r == Some(YouTube)
    ensures r == Some(YouTube) <==> ContainsLink(text)
    ensures text == [] ==> r == None
  {
    assert ContainsLink(text) == LinkFrom(text, 0);
    if text == [] then None
    else if SearchFrom(text, 0) then Some(YouTube)
    else None
  }

  // ---------------------------------------------------------------------
  // Proofs

  lemma {:induction false} LiteralAtConcat(t: string, i: nat, a: string, b: string)
    ensures LiteralAt(t, i, a + b) <==> LiteralAt(t, i, a) && LiteralAt(t, i + |a|, b)
  {
    if LiteralAt(t, i, a) && LiteralAt(t, i + |a|, b) {
      forall k | 0 <= k < |a + b| ensures LowerChar(t[i + k]) == (a + b)[k] {
        if k >= |a| {
          assert LowerChar(t[i + |a| + (k - |a|)]) == b[k - |a|];
        }
      }
    }
    if LiteralAt(t, i, a + b) {
      forall k | 0 <= k < |a| ensures LowerChar(t[i + k]) == a[k] {
        assert (a + b)[k] == a[k];
      }
      forall k | 0 <= k < |b| ensures LowerChar(t[i + |a| + k]) == b[k] {
        assert LowerChar(t[i + (|a| + k)]) == (a + b)[|a| + k];
      }
    }
  }

  /** A link fits inside the text. */
  lemma LinkAtFits(t: string, i: nat)
    ensures LinkAt(t, i) ==> i + 20 <= |t|
  {
    if LinkAt(t, i) {
      var h: nat, p: nat :| h < |Hosts| && p < |Paths| && ShapeAt(t, i, h, p);
      assert |Hosts[h]| >= 8;
    }
  }

  /** A link is its host with the slash, then its path, then its id. */
  lemma ShapeParts(t: string, i: nat, h: nat, p: nat)
    requires h < |Hosts| && p < |Paths|
    ensures ShapeAt(t, i, h, p) <==>
      LiteralAt(t, i, Hosts[h] + "/") && LiteralAt(t, i + |Hosts[h]| + 1, Paths[p])
      && IdAt(t, i + |Hosts[h]| + 1 + |Paths[p]|)
  {
    LiteralAtConcat(t, i, Hosts[h] + "/", Paths[p]);
  }

  /** The matcher for one host agrees with the declarative reading. */
  lemma MatchHostIsShape(t: string, i: nat, h: nat)
    requires h < |Hosts|
    ensures MatchHost(t, i, h) <==> exists p: nat :: p < |Paths| && ShapeAt(t, i, h, p)
  {
    var j := i + |Hosts[h]| + 1;
    if MatchHost(t, i, h) {
      var p: nat :| p < |Paths| && PathAt(t, j, p);
      ShapeParts(t, i, h, p);
    }
    if exists p: nat :: p < |Paths| && ShapeAt(t, i, h, p) {
      var p: nat :| p < |Paths| && ShapeAt(t, i, h, p);
      ShapeParts(t, i, h, p);
      assert PathAt(t, j, p);
    }
  }

  /** The matcher at one position agrees with the declarative reading. */
  lemma MatchAtIsLinkAt(t: string, i: nat)
    ensures MatchAt(t, i) <==> LinkAt(t, i)
  {
    MatchHostIsShape(t, i, 0);
    MatchHostIsShape(t, i, 1);
    if LinkAt(t, i) {
      var h: nat, p: nat :| h < |Hosts| && p < |Paths| && ShapeAt(t, i, h, p);
      assert h == 0 || h == 1;
    }
  }

  /** A link found in t is still found, shifted, inside u + t + v. */
  lemma LinkAtShift(u: string, t: string, v: string, i: nat)
    requires LinkAt(t, i)
    ensures LinkAt(u + t + v, |u| + i)
  {
    var h: nat, p: nat :| h < |Hosts| && p < |Paths| && ShapeAt(t, i, h, p);
    var w := u + t + v;
    assert forall k :: 0 <= k < |t| ==> w[|u| + k] == t[k];
    assert ShapeAt(w, |u| + i, h, p);
  }

  /** A link found in t[a..b] is a link of t, and one of t lying inside
      [a, b) is a link of t[a..b]. */
  lemma LinkAtSlice(t: string, a: nat, b: nat, i: nat)
    requires a <= b <= |t|
    ensures LinkAt(t[a..b], i) ==> LinkAt(t, a + i)
    ensures forall h: nat, p: nat ::
      (h < |Hosts| && p < |Paths| && a + i + LinkLength(h, p) <= b && ShapeAt(t, a + i, h, p))
      ==> ShapeAt(t[a..b], i, h, p)
  {
    if LinkAt(t[a..b], i) {
      assert t == t[..a] + t[a..b] + t[b..];
      LinkAtShift(t[..a], t[a..b], t[b..], i);
    }
  }

  /** Detection holds up when text is added on either side: re.search
      looks anywhere in the text. */
  lemma {:induction false} DetectExtends(u: string, t: string, v: string)
    ensures Detect(t) == Some(YouTube) ==> Detect(u + t + v) == Some(YouTube)
  {
    if Detect(t) == Some(YouTube) {
      var i: nat :| i <= |t| && LinkAt(t, i);
      LinkAtShift(u, t, v, i);
      LinkAtFits(u + t + v, |u| + i);
    }
  }

  /** No false negatives: every one of the five shapes after either host,
      written in any letter case, with any eleven id characters and any
      surrounding text, is detected. */
  lemma {:induction false} ShapeDetected(u: string, written: string, id: string, v: string, h: nat, p: nat)
    requires h < |Hosts| && p < |Paths|
    requires |written| == |Hosts[h] + "/" + Paths[p]|
    requires forall k :: 0 <= k < |written| ==> LowerChar(written[k]) == (Hosts[h] + "/" + Paths[p])[k]
    requires |id| == IdLength && forall k :: 0 <= k < |id| ==> IsIdChar(id[k])
    ensures Detect(u + written + id + v) == Some(YouTube)
  {
    var w := written + id;
    assert LiteralAt(w, 0, Hosts[h] + "/" + Paths[p]);
    assert forall k :: |written| <= k < |w| ==> w[k] == id[k - |written|];
    assert ShapeAt(w, 0, h, p);
    LinkAtShift(u, w, v, 0);
    assert u + written + id + v == u + w + v;
    LinkAtFits(u + w + v, |u|);
  }

  /** The characters of a link are not whitespace, at both of its ends. */
  lemma ShapeEndsAreText(t: string, i: nat, h: nat, p: nat)
    requires h < |Hosts| && p < |Paths| && ShapeAt(t, i, h, p)
    ensures i + LinkLength(h, p) <= |t|
    ensures !IsSpace(t[i]) && !IsSpace(t[i + LinkLength(h, p) - 1])
  {
    assert (Hosts[h] + "/" + Paths[p])[0] == 'y';
    assert LowerChar(t[i]) == 'y';
    var last := i + LinkLength(h, p) - 1;
    assert IsIdChar(t[last]);
  }

  /** handle_text strips the message before detection; that never changes
      the outcome, since a link has no whitespace at either end. */
  lemma DetectIgnoresSurroundingSpace(t: string)
    ensures Detect(Strip(t)) == Detect(t)
  {
    StrippedLinkIsLink(t);
    LinkSurvivesStrip(t);
  }

  lemma StrippedLinkIsLink(t: string)
    ensures ContainsLink(Strip(t)) ==> ContainsLink(t)
  {
    var r := Strip(t);
    if r != [] && ContainsLink(r) {
      var a, b := LeadingSpaces(t), TextEnd(t);
      assert r == t[a..b];
      var i: nat :| i <= |r| && LinkAt(r, i);
      LinkAtSlice(t, a, b, i);
      LinkAtFits(t, a + i);
    }
  }

  lemma LinkSurvivesStrip(t: string)
    ensures ContainsLink(t) ==> ContainsLink(Strip(t))
  {
    if ContainsLink(t) {
      var j: nat :| j <= |t| && LinkAt(t, j);
      var h: nat, p: nat :| h < |Hosts| && p < |Paths| && ShapeAt(t, j, h, p);
      LinkInsideStrip(t, j, h, p);
      ShapeInSlice(t, LeadingSpaces(t), TextEnd(t), j, h, p);
    }
  }

  /** A link lies between the leading and the trailing whitespace. */
  lemma LinkInsideStrip(t: string, j: nat, h: nat, p: nat)
    requires h < |Hosts| && p < |Paths| && ShapeAt(t, j, h, p)
    ensures Strip(t) != [] && Strip(t) == t[LeadingSpaces(t)..TextEnd(t)]
    ensures LeadingSpaces(t) <= j && j + LinkLength(h, p) <= TextEnd(t)
  {
    ShapeEndsAreText(t, j, h, p);
    assert !IsSpace(t[j]);
  }

  /** A link inside [a, b) is a link of t[a..b]. */
  lemma ShapeInSlice(t: string, a: nat, b: nat, j: nat, h: nat, p: nat)
    requires h < |Hosts| && p < |Paths| && ShapeAt(t, j, h, p)
    requires a <= j && j + LinkLength(h, p) <= b <= |t|
    ensures ContainsLink(t[a..b])
  {
    var i: nat := j - a;
    LinkAtSlice(t, a, b, i);
    assert ShapeAt(t[a..b], i, h, p);
    assert LinkAt(t[a..b], i);
  }

  /** "youtu.be/" in either letter case reads as the short host with the
      bare-id path. */
  lemma ShortHostWritten(written: string)
    requires written == "youtu.be/" || written == "YOUTU.BE/"
    ensures |written| == |Hosts[1] + "/" + Paths[4]|
    ensures forall k :: 0 <= k < |written| ==> LowerChar(written[k]) == (Hosts[1] + "/" + Paths[4])[k]
  {
    assert Hosts[1] + "/" + Paths[4] == "youtu.be/";
  }

  /** Short links are detected after any scheme or text, with the host in
      lower case or in capitals and whatever their eleven id characters
      (such as dQw4w9WgXcQ). */
  lemma ShortLinkDetected(scheme: string, host: string, id: string)
    requires host == "youtu.be/" || host == "YOUTU.BE/"
    requires |id| == IdLength && forall k :: 0 <= k < |id| ==> IsIdChar(id[k])
    ensures Detect(scheme + host + id) == Some(YouTube)
  {
    ShortHostWritten(host);
    ShapeDetected(scheme, host, id, "", 1, 4);
    assert scheme + host + id + "" == scheme + host + id;
  }

  /** Text without "youtu" anywhere (in any case) has no link. */
  lemma {:induction false} NoHostNoLink(t: string)
    requires forall i: nat :: i <= |t| ==> !LiteralAt(t, i, "youtu")
    ensures Detect(t) == None
  {
    if ContainsLink(t) {
      var i: nat :| i <= |t| && LinkAt(t, i);
      var h: nat, p: nat :| h < |Hosts| && p < |Paths| && ShapeAt(t, i, h, p);
      var lit := Hosts[h] + "/" + Paths[p];
      assert lit == "youtu" + lit[5..];
      LiteralAtConcat(t, i, "youtu", lit[5..]);
      assert false;
    }
  }
}
