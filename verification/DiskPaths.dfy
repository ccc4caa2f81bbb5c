/** Path keys of the Clave Disk: case folding, parents and what lies below what. */
module DiskPaths {
  import opened Common

  const ROOT := "\\"

  function UpperChar(c: char): char { if 'a' <= c <= 'z' then c - 'a' + 'A' else c }

  /** ASCII upper case. */
  function Upper(s: string): (r: string)
    ensures |r| == |s|
  {
    seq(|s|, i requires 0 <= i < |s| => UpperChar(s[i]))
  }

  /** Drops trailing separators, but never the only character. */
  function Trim(s: string): string {
    if |s| > 1 && s[|s| - 1] == '\\' then Trim(s[..|s| - 1]) else s
  }

  /** The key of a path: no trailing separator, upper case; the root is a single separator. */
  function Canon(path: string): string {
    Upper(Trim(if path == "" then ROOT else path))
  }

  /** How much longer a stored name is than its key: its trailing separators, or -1 if it is empty. */
  function Surplus(name: string): int { |name| - |Canon(name)| }

  /** The loop that the original runs. */
  method ComputeCanon(path: string) returns (key: string)
    ensures key == Canon(path)
  {
    var p := if path == "" then ROOT else path;
    while |p| > 1 && p[|p| - 1] == '\\'
      invariant Trim(p) == Trim(if path == "" then ROOT else path)
    {
      p := p[..|p| - 1];
    }
    key := Upper(p);
  }

  function LastSlash(s: string): (r: Option<nat>)
    ensures r.Some? ==> r.value < |s| && s[r.value] == '\\'
    ensures forall i :: (if r.Some? then r.value + 1 else 0) <= i < |s| ==> s[i] != '\\'
  {
    if s == "" then None
    else if s[|s| - 1] == '\\' then Some(|s| - 1)
    else LastSlash(s[..|s| - 1])
  }

  function ParentCanon(key: string): (r: Option<string>)
    ensures r.Some? ==> |r.value| < |key| && r.value != ""
  {
    if key == ROOT then None
    else
      match LastSlash(key)
      case None => None
      case Some(i) => if i == 0 then RootShorter(key); Some(ROOT) else Some(key[..i])
  }

  lemma RootShorter(key: string)
    requires key != "" && key != ROOT && key[0] == '\\'
    ensures |key| > 1
  {
    assert |key| == 1 ==> key == ROOT;
  }

  /** Strictly inside the subtree of `top`. */
  predicate Below(key: string, top: string) { top + "\\" <= key }

  /** In the subtree of `top`, itself included. */
  predicate InSubtree(key: string, top: string) { key == top || Below(key, top) }

  lemma UpperConcat(a: string, b: string)
    ensures Upper(a + b) == Upper(a) + Upper(b)
  {
  }

  lemma {:induction false} TrimFacts(s: string)
    requires s != ""
    ensures Trim(s) != "" && Trim(s) <= s
    ensures forall j :: |Trim(s)| <= j < |s| ==> s[j] == '\\'
    ensures |Trim(s)| > 1 ==> s[|Trim(s)| - 1] != '\\'
  {
    if |s| > 1 && s[|s| - 1] == '\\' {
      TrimFacts(s[..|s| - 1]);
    }
  }

  lemma {:induction false} TrimUnique(s: string, n: nat)
    requires 1 <= n <= |s| && (n > 1 ==> s[n - 1] != '\\') && forall j :: n <= j < |s| ==> s[j] == '\\'
    ensures Trim(s) == s[..n]
  {
    if n < |s| {
      TrimUnique(s[..|s| - 1], n);
      assert s[..|s| - 1][..n] == s[..n];
    } else {
      assert s[..n] == s;
    }
  }

  /** The key of a non-empty name: an upper-cased prefix, with only separators after it. */
  lemma CanonFacts(s: string)
    requires s != ""
    ensures 1 <= |Canon(s)| <= |s| && Canon(s) == Upper(s[..|Canon(s)|])
    ensures forall j :: |Canon(s)| <= j < |s| ==> s[j] == '\\'
    ensures |Canon(s)| > 1 ==> s[|Canon(s)| - 1] != '\\' && Canon(s)[|Canon(s)| - 1] != '\\'
  {
    TrimFacts(s);
    assert s[..|Trim(s)|] == Trim(s);
  }

  lemma CanonUnique(s: string, n: nat)
    requires 1 <= n <= |s| && (n > 1 ==> s[n - 1] != '\\') && forall j :: n <= j < |s| ==> s[j] == '\\'
    ensures Canon(s) == Upper(s[..n])
  {
    TrimUnique(s, n);
  }

  /** Appending a tail that ends in a proper character, apart from trailing separators. */
  lemma CanonOfJoin(head: string, tail: string, m: nat)
    requires 1 <= m <= |tail| && tail[m - 1] != '\\' && forall j :: m <= j < |tail| ==> tail[j] == '\\'
    ensures Canon(head + tail) == Upper(head) + Upper(tail[..m])
  {
    var s, n := head + tail, |head| + m;
    assert s[n - 1] == tail[m - 1];
    forall j | n <= j < |s| ensures s[j] == '\\' {
      assert s[j] == tail[j - |head|];
    }
    CanonUnique(s, n);
    assert s[..n] == head + tail[..m];
    UpperConcat(head, tail[..m]);
  }

  /** Appending separators alone does not change the key. */
  lemma CanonOfSeparators(head: string, tail: string)
    requires forall j :: 0 <= j < |tail| ==> tail[j] == '\\'
    ensures Canon(head + tail) == Canon(head)
  {
    var s := head + tail;
    if head != "" {
      var n := |Canon(head)|;
      CanonFacts(head);
      forall j | n <= j < |s| ensures s[j] == '\\' {
        assert s[j] == if j < |head| then head[j] else tail[j - |head|];
      }
      CanonUnique(s, n);
      assert s[..n] == head[..n];
    } else if tail != "" {
      assert s == tail;
      CanonUnique(s, 1);
      assert s[..1] == ROOT;
    }
  }

  /** No key ends in a separator, except the root's. */
  lemma KeyEnd(name: string)
    ensures Canon(name) != ""
    ensures |Canon(name)| > 1 ==> Canon(name)[|Canon(name)| - 1] != '\\'
  {
    if name != "" {
      CanonFacts(name);
    }
  }

  lemma {:induction false} LastSlashOfRest(top: string, rest: string)
    requires rest != "" && rest[0] == '\\'
    ensures LastSlash(rest).Some?
    ensures LastSlash(top + rest) == Some(|top| + LastSlash(rest).value)
    decreases |rest|
  {
    var n := |rest| - 1;
    assert (top + rest)[|top| + n] == rest[n];
    if rest[n] != '\\' {
      LastSlashOfRest(top, rest[..n]);
      assert (top + rest)[..|top| + n] == top + rest[..n];
    }
  }

  /** Moving a key from `old` to `new`: the part below stays, and so does the shape of its parent. */
  lemma ParentBelow(top: string, rest: string)
    requires top != "" && rest != "" && rest[0] == '\\'
    ensures LastSlash(rest).Some?
    ensures ParentCanon(top + rest) == Some(top + rest[..LastSlash(rest).value])
  {
    LastSlashOfRest(top, rest);
    var j := LastSlash(rest).value;
    assert |top + rest| > 1;
    assert (top + rest)[..|top| + j] == top + rest[..j];
  }

  /** A key below `top` has its parent in the subtree of `top`. */
  lemma ParentStaysInSubtree(key: string, top: string)
    requires top != "" && Below(key, top)
    ensures ParentCanon(key).Some? && InSubtree(ParentCanon(key).value, top)
  {
    var rest := key[|top|..];
    assert key == top + rest && rest[0] == '\\';
    ParentBelow(top, rest);
    var j := LastSlash(rest).value;
    if j > 0 {
      assert rest[..j][0] == '\\';
      assert top + "\\" <= top + rest[..j];
    } else {
      assert top + rest[..0] == top;
    }
  }

  /** Whatever has its parent in the subtree of `top` lies below `top`. */
  lemma ChildIsBelow(key: string, top: string)
    requires top != "" && top != ROOT && ParentCanon(key).Some? && InSubtree(ParentCanon(key).value, top)
    ensures Below(key, top)
  {
    var p := ParentCanon(key).value;
    assert p != ROOT;
    var i := LastSlash(key).value;
    assert p == key[..i] && key[i] == '\\';
    if p == top {
      assert key[..i + 1] == top + "\\";
    } else {
      assert top + "\\" <= p;
    }
  }

  /** The same letter up to case, or the same character. */
  predicate SameLetter(x: char, y: char) {
    || x == y
    || ('a' <= x <= 'z' && x as int - y as int == 32)
    || ('a' <= y <= 'z' && y as int - x as int == 32)
  }

  predicate SameSpelling(a: string, b: string) {
    |a| == |b| && forall i :: 0 <= i < |a| ==> SameLetter(a[i], b[i])
  }

  lemma UpperIff(a: string, b: string)
    ensures Upper(a) == Upper(b) <==> SameSpelling(a, b)
  {
    if Upper(a) == Upper(b) {
      forall i | 0 <= i < |a| ensures SameLetter(a[i], b[i]) {
        assert Upper(a)[i] == Upper(b)[i];
      }
    }
  }

  /** `stem` is the name without its trailing separators; the root's is one separator. */
  predicate IsStem(name: string, stem: string) {
    && stem != "" && (|stem| > 1 ==> stem[|stem| - 1] != '\\')
    && if name == "" then stem == ROOT
       else stem <= name && forall j :: |stem| <= j < |name| ==> name[j] == '\\'
  }

  /** Every name has a stem, and its key is the stem in upper case. */
  lemma StemOf(name: string) returns (stem: string)
    ensures IsStem(name, stem)
  {
    if name == "" {
      stem := ROOT;
    } else {
      TrimFacts(name);
      stem := Trim(name);
    }
  }

  lemma StemKey(name: string, stem: string)
    requires IsStem(name, stem)
    ensures Canon(name) == Upper(stem)
  {
    if name != "" {
      CanonUnique(name, |stem|);
      assert name[..|stem|] == stem;
    }
  }

  /** Two names have the same key if and only if they differ only in case and in trailing separators. */
  lemma SameKeyIff(a: string, stemA: string, b: string, stemB: string)
    requires IsStem(a, stemA) && IsStem(b, stemB)
    ensures Canon(a) == Canon(b) <==> SameSpelling(stemA, stemB)
  {
    StemKey(a, stemA);
    StemKey(b, stemB);
    UpperIff(stemA, stemB);
  }

  /** The parent of a key is what stands before its last separator, the root if that is nothing. */
  lemma ParentMeans(key: string, parent: string)
    requires key != "" && key != ROOT
    ensures ParentCanon(key) == Some(parent) <==>
            exists i :: 0 <= i < |key| && key[i] == '\\' && (forall j :: i < j < |key| ==> key[j] != '\\')
                        && parent == if i == 0 then ROOT else key[..i]
    ensures ParentCanon(key) == None <==> forall i :: 0 <= i < |key| ==> key[i] != '\\'
  {
    if LastSlash(key).Some? {
      var i := LastSlash(key).value;
      assert key[i] == '\\' && forall j :: i < j < |key| ==> key[j] != '\\';
    }
  }
}
