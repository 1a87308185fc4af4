/** The request path: how src/dem/config.c writes it and how parse_uri of
    src/endpoint/restful.c takes it apart in place. */
module Uri {

  /** Positions of the separators in s[..n]. */
  function Slashes(s: string, n: nat): (r: seq<nat>)
    requires n <= |s|
    ensures forall j :: 0 <= j < |r| ==> r[j] < n && s[r[j]] == '/'
    ensures forall j, k :: 0 <= j < k < |r| ==> r[j] < r[k]
  {
    if n == 0 then []
    else if s[n - 1] == '/' then Slashes(s, n - 1) + [n - 1]
    else Slashes(s, n - 1)
  }

  lemma {:induction false} SlashesComplete(s: string, n: nat, i: nat)
    requires i < n <= |s| && s[i] == '/'
    ensures i in Slashes(s, n)
  {
    if i < n - 1 {
      SlashesComplete(s, n - 1, i);
    }
  }

  /** The text after each separator, up to the next separator or the end. */
  function Parts(s: string): seq<string> {
    var at := Slashes(s, |s|);
    seq(|at|, j requires 0 <= j < |at| =>
      s[at[j] + 1..if j + 1 < |at| then at[j + 1] else |s|])
  }

  function Join(parts: seq<string>): string {
    if parts == [] then ""
    else Join(parts[..|parts| - 1]) + "/" + parts[|parts| - 1]
  }

  lemma {:induction false} SlashesExtend(s: string, t: string, n: nat)
    requires n <= |s|
    ensures Slashes(s + t, n) == Slashes(s, n)
  {
    if n > 0 {
      SlashesExtend(s, t, n - 1);
    }
  }

  lemma {:induction false} NoMoreSlashes(s: string, m: nat, n: nat)
    requires m <= n <= |s| && '/' !in s[m..n]
    ensures Slashes(s, n) == Slashes(s, m)
  {
    if m < n {
      assert s[n - 1] == s[m..n][n - 1 - m];
      assert forall c <- s[m..n - 1] :: c in s[m..n];
      NoMoreSlashes(s, m, n - 1);
    }
  }

  lemma SlashesOfAppend(init: string, last: string)
    requires '/' !in last
    ensures var s := init + "/" + last;
      Slashes(s, |s|) == Slashes(init, |init|) + [|init|]
  {
    var s := init + "/" + last;
    var cut := |init|;
    assert s == init + ("/" + last);
    SlashesExtend(init, "/" + last, cut);
    assert s[cut + 1..|s|] == last;
    NoMoreSlashes(s, cut + 1, |s|);
  }

  /** A path put together from parts that contain no separator comes apart into them. */
  lemma {:induction false} PartsOfJoin(parts: seq<string>)
    requires forall p <- parts :: '/' !in p
    ensures Parts(Join(parts)) == parts
  {
    if parts == [] {
      return;
    }
    var n := |parts| - 1;
    var init, last := Join(parts[..n]), parts[n];
    PartsOfJoin(parts[..n]);
    PartsOfAppend(init, last);
    assert parts == parts[..n] + [last];
  }

  lemma PartsOfAppend(init: string, last: string)
    requires '/' !in last
    ensures Parts(init + "/" + last) == Parts(init) + [last]
  {
    var s := init + "/" + last;
    SlashesOfAppend(init, last);
    var at := Slashes(init, |init|);
    forall j | 0 <= j < |at| ensures Parts(s)[j] == Parts(init)[j] {
      var end := if j + 1 < |at| then at[j + 1] else |init|;
      assert s[at[j] + 1..end] == init[at[j] + 1..end];
    }
    assert s[|init| + 1..|s|] == last;
  }

  /** The C string that starts at an offset of a buffer. */
  function CString(buf: seq<char>, off: nat): string
    decreases |buf| - off
  {
    if off >= |buf| || buf[off] == '\0' then "" else [buf[off]] + CString(buf, off + 1)
  }

  lemma {:induction false} CStringIs(buf: seq<char>, off: nat, end: nat)
    requires off <= end < |buf| && buf[end] == '\0'
    requires '\0' !in buf[off..end]
    ensures CString(buf, off) == buf[off..end]
    decreases end - off
  {
    if off < end {
      assert buf[off] == buf[off..end][0];
      assert buf[off + 1..end] == buf[off..end][1..];
      CStringIs(buf, off + 1, end);
    }
  }

  /** The terminated buffer once the separators in s[..p] are overwritten. */
  function Overwritten(s: string, p: nat): (buf: seq<char>)
    requires p <= |s|
    ensures |buf| == |s| + 1 && buf[|s|] == '\0'
    ensures forall q :: 0 <= q < |s| ==> buf[q] == if q < p && s[q] == '/' then '\0' else s[q]
  {
    seq(|s|, q requires 0 <= q < |s| => if q < p && s[q] == '/' then '\0' else s[q]) + ['\0']
  }

  /** Overwrites separators with terminators and records where each part starts. At most
      `depth` parts are recorded; one separator more ends the last of them. */
  method ParseUri(uri: array<char>, depth: nat, part: array<nat>) returns (i: int)
    requires uri.Length > 0 && uri[uri.Length - 1] == '\0' && '\0' !in uri[..uri.Length - 1]
    requires depth <= part.Length
    modifies uri, part
    ensures var s := old(uri[..uri.Length - 1]);
      && i == (if |Parts(s)| <= depth then |Parts(s)| else depth + 1) - 1
      && (forall j :: 0 <= j < |Parts(s)| && j < depth ==> CString(uri[..], part[j]) == Parts(s)[j])
  {
    ghost var len := uri.Length - 1;
    ghost var s := uri[..len];
    i := -1;
    var left := depth + 1;
    var p := 0;
    assert uri[..] == Overwritten(s, 0);
    while left > 0 && uri[p] != '\0'
      invariant 0 <= p <= len
      invariant i == |Slashes(s, p)| - 1 && left == depth - i >= 0
      invariant uri[..] == Overwritten(s, p)
      invariant forall j :: 0 <= j <= i && j < depth ==> part[j] == Slashes(s, p)[j] + 1
      decreases len - p
    {
      assert uri[p] == uri[..][p] == s[p];
      if uri[p] == '/' {
        uri[p] := '\0';
        i, left := i + 1, left - 1;
        if left > 0 {
          part[i] := p + 1;
        }
      }
      p := p + 1;
      assert uri[..] == Overwritten(s, p);
    }
    assert left > 0 ==> uri[..][p] == '\0';
    ScanFinished(s, p, left > 0);
    forall j | 0 <= j < |Parts(s)| && j < depth ensures CString(uri[..], part[j]) == Parts(s)[j] {
      PartInPlace(s, p, j);
    }
  }

  lemma ScanFinished(s: string, p: nat, ended: bool)
    requires p <= |s| && '\0' !in s && (ended ==> Overwritten(s, p)[p] == '\0')
    ensures Slashes(s, p) <= Slashes(s, |s|) && (ended ==> p == |s|)
    ensures |Parts(s)| == |Slashes(s, |s|)|
  {
    assert p < |s| ==> s[p] in s;
    PrefixSlashes(s, p, |s|);
  }

  /** A part reads off the overwritten buffer as it stood in the original text. */
  lemma PartInPlace(s: string, p: nat, j: nat)
    requires p <= |s| && '\0' !in s
    requires var at := Slashes(s, |s|);
      j < |at| && if j + 1 < |at| then at[j + 1] < p else p == |s|
    ensures CString(Overwritten(s, p), Slashes(s, |s|)[j] + 1) == Parts(s)[j]
  {
    var buf := Overwritten(s, p);
    var at := Slashes(s, |s|);
    var end := if j + 1 < |at| then at[j + 1] else |s|;
    BetweenSlashes(s, j);
    Untouched(s, p, at[j] + 1, end);
    CStringIs(buf, at[j] + 1, end);
  }

  /** Between separators the overwritten buffer is the text. */
  lemma Untouched(s: string, p: nat, from: nat, end: nat)
    requires p <= |s| && from <= end <= |s| && '/' !in s[from..end] && '\0' !in s
    ensures Overwritten(s, p)[from..end] == s[from..end] && '\0' !in s[from..end]
  {
    forall q | from <= q < end ensures Overwritten(s, p)[q] == s[q] {
      assert s[q] == s[from..end][q - from];
    }
    assert forall c <- s[from..end] :: c in s;
  }

  lemma {:induction false} PrefixSlashes(s: string, m: nat, n: nat)
    requires m <= n <= |s|
    ensures Slashes(s, m) <= Slashes(s, n)
    decreases n - m
  {
    if m < n {
      PrefixSlashes(s, m, n - 1);
    }
  }

  lemma BetweenSlashes(s: string, j: nat)
    requires j < |Slashes(s, |s|)|
    ensures var at := Slashes(s, |s|);
      var end := if j + 1 < |at| then at[j + 1] else |s|;
      at[j] < end && '/' !in s[at[j] + 1..end]
  {
    var at := Slashes(s, |s|);
    var end := if j + 1 < |at| then at[j + 1] else |s|;
    forall q | at[j] < q < end ensures s[q] != '/' {
      NotListed(at, j, q);
      if s[q] == '/' {
        SlashesComplete(s, |s|, q);
      }
    }
  }

  lemma NotListed(at: seq<nat>, j: nat, q: nat)
    requires j < |at| && at[j] < q && (j + 1 < |at| ==> q < at[j + 1])
    requires forall i, k :: 0 <= i < k < |at| ==> at[i] < at[k]
    ensures q !in at
  {
  }

  lemma PartsHaveNoSlash(s: string)
    ensures forall p <- Parts(s) :: '/' !in p
  {
    forall j | 0 <= j < |Parts(s)| ensures '/' !in Parts(s)[j] {
      BetweenSlashes(s, j);
    }
  }
}
