/** Method names of the generated client (`crates/justapi-cli/src/gen_client.rs`):
    identifiers squeezed out of arbitrary text, then made unique by an index. */
module ClientNaming {
  import opened Prelude

  /** The Unicode Alphabetic and numeric properties, of which only their ASCII part matters here. */
  datatype Unicode = Unicode(alphabetic: char -> bool, numeric: char -> bool)

  predicate IsDigit(c: char) { '0' <= c <= '9' }
  predicate IsLower(c: char) { 'a' <= c <= 'z' }
  predicate IsUpper(c: char) { 'A' <= c <= 'Z' }

  ghost predicate Lawful(u: Unicode) {
    forall c: char :: c < '\U{80}' ==>
      (u.alphabetic(c) <==> IsLower(c) || IsUpper(c)) && (u.numeric(c) <==> IsDigit(c))
  }

  function Upper(c: char): char { if IsLower(c) then c - 'a' + 'A' else c }
  function LowerChar(c: char): char { if IsUpper(c) then c - 'A' + 'a' else c }

  /** `to_ascii_lowercase`. */
  function Lower(s: string): (r: string)
    ensures |r| == |s| && forall i :: 0 <= i < |s| ==> r[i] == LowerChar(s[i])
  {
    seq(|s|, i requires 0 <= i < |s| => LowerChar(s[i]))
  }

  // ------------------------------------------------------------------
  // Identifiers
  // ------------------------------------------------------------------

  predicate Alphanumeric(u: Unicode, c: char) { u.alphabetic(c) || u.numeric(c) }

  /** Keep the alphanumeric characters, capitalising each that follows a gap. */
  function Squeeze(u: Unicode, s: string, upper: bool): string {
    if s == "" then ""
    else if Alphanumeric(u, s[0]) then [if upper then Upper(s[0]) else s[0]] + Squeeze(u, s[1..], false)
    else Squeeze(u, s[1..], true)
  }

  function TrimLeft(u: Unicode, s: string): string {
    if s != "" && !u.alphabetic(s[0]) then TrimLeft(u, s[1..]) else s
  }

  function TrimRight(u: Unicode, s: string): string {
    if s != "" && !u.alphabetic(s[|s| - 1]) then TrimRight(u, s[..|s| - 1]) else s
  }

  function Ident(u: Unicode, s: string): string {
    var trimmed := TrimRight(u, TrimLeft(u, Squeeze(u, s, false)));
    if trimmed == "" then "call" else trimmed
  }

  /** `sanitize_ident`. */
  method SanitizeIdent(u: Unicode, s: string) returns (r: string)
    ensures r == Ident(u, s)
  {
    var out, upper := "", false;
    var i := 0;
    while i < |s|
      invariant 0 <= i <= |s| && out + Squeeze(u, s[i..], upper) == Squeeze(u, s, false)
    {
      var ch := s[i];
      assert s[i..][1..] == s[i + 1..];
      if Alphanumeric(u, ch) {
        var c := if upper then Upper(ch) else ch;
        assert out + ([c] + Squeeze(u, s[i + 1..], false)) == (out + [c]) + Squeeze(u, s[i + 1..], false);
        out := out + [c];
        upper := false;
      } else {
        upper := true;
      }
      i := i + 1;
    }
    assert out + Squeeze(u, s[i..], upper) == out;
    var trimmed := TrimRight(u, TrimLeft(u, out));
    r := if trimmed == "" then "call" else trimmed;
  }

  /** Starts and ends with a letter, and holds nothing but letters and digits. */
  ghost predicate Identifier(u: Unicode, s: string) {
    && s != "" && u.alphabetic(s[0]) && u.alphabetic(s[|s| - 1])
    && forall i :: 0 <= i < |s| ==> Alphanumeric(u, s[i])
  }

  lemma {:induction false} UpperAlphanumeric(u: Unicode, c: char)
    requires Lawful(u) && Alphanumeric(u, c)
    ensures Alphanumeric(u, Upper(c))
  {
  }

  ghost predicate AllAlphanumeric(u: Unicode, s: string) {
    forall i :: 0 <= i < |s| ==> Alphanumeric(u, s[i])
  }

  lemma {:induction false} SqueezeKeeps(u: Unicode, s: string, upper: bool)
    requires Lawful(u)
    ensures AllAlphanumeric(u, Squeeze(u, s, upper))
  {
    if s != "" {
      SqueezeKeeps(u, s[1..], !Alphanumeric(u, s[0]));
      if Alphanumeric(u, s[0]) {
        UpperAlphanumeric(u, s[0]);
      }
    }
  }

  lemma {:induction false} TrimLeftOk(u: Unicode, s: string)
    requires AllAlphanumeric(u, s)
    ensures AllAlphanumeric(u, TrimLeft(u, s))
    ensures TrimLeft(u, s) != "" ==> u.alphabetic(TrimLeft(u, s)[0])
  {
    if s != "" && !u.alphabetic(s[0]) {
      TrimLeftOk(u, s[1..]);
    }
  }

  lemma {:induction false} TrimRightOk(u: Unicode, s: string)
    requires AllAlphanumeric(u, s) && (s != "" ==> u.alphabetic(s[0]))
    ensures TrimRight(u, s) != "" ==> Identifier(u, TrimRight(u, s))
  {
    if s != "" && !u.alphabetic(s[|s| - 1]) {
      TrimRightOk(u, s[..|s| - 1]);
    }
  }

  /** Every sanitised name is an identifier; in particular none ends in a digit. */
  lemma {:induction false} IdentOk(u: Unicode, s: string)
    requires Lawful(u)
    ensures Identifier(u, Ident(u, s))
  {
    SqueezeKeeps(u, s, false);
    TrimLeftOk(u, Squeeze(u, s, false));
    TrimRightOk(u, TrimLeft(u, Squeeze(u, s, false)));
  }

  lemma {:induction false} SqueezeFixed(u: Unicode, s: string)
    requires AllAlphanumeric(u, s)
    ensures Squeeze(u, s, false) == s
  {
    if s != "" {
      SqueezeFixed(u, s[1..]);
    }
  }

  /** Identifiers are left alone, so sanitising twice changes nothing more. */
  lemma {:induction false} IdentIdempotent(u: Unicode, s: string)
    requires Lawful(u)
    ensures Ident(u, Ident(u, s)) == Ident(u, s)
  {
    IdentOk(u, s);
    SqueezeFixed(u, Ident(u, s));
  }

  // ------------------------------------------------------------------
  // Operations
  // ------------------------------------------------------------------

  datatype Method = Get | Post | Put | Delete | Patch | Head | Options | Query

  const METHODS: seq<Method> := [Get, Post, Put, Delete, Patch, Head, Options, Query]

  function MethodText(verb: Method): string {
    match verb
    case Get => "get"
    case Post => "post"
    case Put => "put"
    case Delete => "delete"
    case Patch => "patch"
    case Head => "head"
    case Options => "options"
    case Query => "query"
  }

  /** A path and the operations declared on it, each with its optional operation id. */
  datatype PathItem = PathItem(rawPath: string, operations: map<Method, Option<string>>)

  /** The parts of a path between slashes, empty ones left out. */
  function Segments(path: string, current: string): seq<string> {
    if path == "" then (if current == "" then [] else [current])
    else if path[0] == '/' then (if current == "" then [] else [current]) + Segments(path[1..], "")
    else Segments(path[1..], current + [path[0]])
  }

  function Joined(u: Unicode, parts: seq<string>): string {
    if parts == [] then ""
    else if |parts| == 1 then Ident(u, parts[0])
    else Joined(u, parts[..|parts| - 1]) + "_" + Ident(u, parts[|parts| - 1])
  }

  function BaseName(u: Unicode, verb: Method, path: string, id: Option<string>): string {
    match id
    case Some(text) => Ident(u, text)
    case None => MethodText(verb) + "_" + Joined(u, Segments(path, ""))
  }

  /** The operations of one method, in path order. */
  function NamesOf(u: Unicode, verb: Method, paths: seq<PathItem>): seq<string> {
    if paths == [] then []
    else
      NamesOf(u, verb, paths[..|paths| - 1]) +
      var item := paths[|paths| - 1];
      if verb in item.operations then [BaseName(u, verb, item.rawPath, item.operations[verb])] else []
  }

  function CollectNames(u: Unicode, verbs: seq<Method>, paths: seq<PathItem>): seq<string> {
    if verbs == [] then []
    else CollectNames(u, verbs[..|verbs| - 1], paths) + NamesOf(u, verbs[|verbs| - 1], paths)
  }

  ghost predicate EndsWithoutDigit(s: string) { s != "" && !IsDigit(s[|s| - 1]) }

  ghost predicate AllEndWithoutDigit(names: seq<string>) {
    forall i :: 0 <= i < |names| ==> EndsWithoutDigit(names[i])
  }

  lemma {:induction false} JoinedOk(u: Unicode, parts: seq<string>)
    requires Lawful(u) && parts != []
    ensures EndsWithoutDigit(Joined(u, parts))
  {
    IdentOk(u, parts[|parts| - 1]);
  }

  lemma {:induction false} PrefixedOk(prefix: string, name: string)
    requires name == "" || EndsWithoutDigit(name)
    ensures EndsWithoutDigit(prefix + "_" + name)
  {
    var s := prefix + "_" + name;
    assert s[|s| - 1] == if name == "" then '_' else name[|name| - 1];
  }

  lemma {:induction false} BaseNameOk(u: Unicode, verb: Method, path: string, id: Option<string>)
    requires Lawful(u)
    ensures EndsWithoutDigit(BaseName(u, verb, path, id))
  {
    if id.Some? {
      IdentOk(u, id.value);
    } else {
      var parts := Segments(path, "");
      if parts != [] {
        JoinedOk(u, parts);
      }
      PrefixedOk(MethodText(verb), Joined(u, parts));
    }
  }

  lemma {:induction false} NamesOfOk(u: Unicode, verb: Method, paths: seq<PathItem>)
    requires Lawful(u)
    ensures AllEndWithoutDigit(NamesOf(u, verb, paths))
  {
    if paths != [] {
      NamesOfOk(u, verb, paths[..|paths| - 1]);
      var item := paths[|paths| - 1];
      if verb in item.operations {
        BaseNameOk(u, verb, item.rawPath, item.operations[verb]);
      }
    }
  }

  lemma {:induction false} CollectNamesOk(u: Unicode, verbs: seq<Method>, paths: seq<PathItem>)
    requires Lawful(u)
    ensures AllEndWithoutDigit(CollectNames(u, verbs, paths))
  {
    if verbs != [] {
      CollectNamesOk(u, verbs[..|verbs| - 1], paths);
      NamesOfOk(u, verbs[|verbs| - 1], paths);
    }
  }

  // ------------------------------------------------------------------
  // What the names say
  // ------------------------------------------------------------------

  /** The words between the characters left out, the first as it is and the others
      capitalised: a gap starts a new word. */
  lemma {:induction false} SqueezeGap(u: Unicode, a: string, gap: char, b: string, upper: bool)
    requires !Alphanumeric(u, gap)
    ensures Squeeze(u, a + [gap] + b, upper) == Squeeze(u, a, upper) + Squeeze(u, b, true)
    decreases |a|
  {
    var s := a + [gap] + b;
    if a == "" {
      assert s == [gap] + b && s[1..] == b;
    } else {
      assert s[0] == a[0] && s[1..] == a[1..] + [gap] + b;
      SqueezeGap(u, a[1..], gap, b, !Alphanumeric(u, a[0]));
      var c := if upper then Upper(a[0]) else a[0];
      if Alphanumeric(u, a[0]) {
        assert [c] + (Squeeze(u, a[1..], false) + Squeeze(u, b, true)) ==
               ([c] + Squeeze(u, a[1..], false)) + Squeeze(u, b, true);
      }
    }
  }

  lemma {:induction false} SqueezeWord(u: Unicode, w: string)
    requires AllAlphanumeric(u, w) && w != ""
    ensures Squeeze(u, w, false) == w && Squeeze(u, w, true) == [Upper(w[0])] + w[1..]
  {
    SqueezeFixed(u, w);
    SqueezeFixed(u, w[1..]);
  }

  ghost predicate NoLetters(u: Unicode, s: string) { forall i :: 0 <= i < |s| ==> !u.alphabetic(s[i]) }

  lemma {:induction false} TrimLeftCuts(u: Unicode, s: string) returns (cut: string)
    ensures s == cut + TrimLeft(u, s) && NoLetters(u, cut)
    ensures TrimLeft(u, s) == "" <==> NoLetters(u, s)
  {
    if s != "" && !u.alphabetic(s[0]) {
      var rest := TrimLeftCuts(u, s[1..]);
      cut := [s[0]] + rest;
      assert s == [s[0]] + s[1..];
    } else {
      cut := "";
      assert s != "" ==> u.alphabetic(s[0]);
    }
  }

  lemma {:induction false} TrimRightCuts(u: Unicode, s: string) returns (cut: string)
    ensures s == TrimRight(u, s) + cut && NoLetters(u, cut)
    ensures TrimRight(u, s) == "" <==> NoLetters(u, s)
  {
    if s != "" && !u.alphabetic(s[|s| - 1]) {
      var rest := TrimRightCuts(u, s[..|s| - 1]);
      cut := rest + [s[|s| - 1]];
      assert s == s[..|s| - 1] + [s[|s| - 1]];
    } else {
      cut := "";
      assert s != "" ==> u.alphabetic(s[|s| - 1]);
    }
  }

  lemma {:induction false} Rejoin(a: string, b: string, c: string, rest: string, all: string)
    requires all == a + rest && rest == b + c
    ensures all == a + b + c
  {
  }

  lemma {:induction false} TrimCuts(u: Unicode, all: string) returns (front: string, back: string)
    ensures NoLetters(u, front) && NoLetters(u, back)
    ensures all == front + TrimRight(u, TrimLeft(u, all)) + back
    ensures TrimRight(u, TrimLeft(u, all)) == "" <==> NoLetters(u, all)
  {
    front := TrimLeftCuts(u, all);
    var rest := TrimLeft(u, all);
    back := TrimRightCuts(u, rest);
    Rejoin(front, TrimRight(u, rest), back, rest, all);
    NoLettersConcat(u, front, rest);
  }

  /** Trimming takes off nothing but what stands before the first letter and behind the
      last, and without a letter the name is `call`. */
  lemma {:induction false} IdentCuts(u: Unicode, s: string) returns (front: string, back: string)
    ensures NoLetters(u, front) && NoLetters(u, back)
    ensures var all := Squeeze(u, s, false);
            if NoLetters(u, all) then Ident(u, s) == "call" else all == front + Ident(u, s) + back
  {
    front, back := TrimCuts(u, Squeeze(u, s, false));
  }

  lemma {:induction false} NoLettersConcat(u: Unicode, a: string, b: string)
    ensures NoLetters(u, a + b) <==> NoLetters(u, a) && NoLetters(u, b)
  {
    if NoLetters(u, a + b) {
      assert forall i :: 0 <= i < |a| ==> (a + b)[i] == a[i];
      assert forall i :: 0 <= i < |b| ==> (a + b)[|a| + i] == b[i];
    }
  }

  lemma {:induction false} SegmentsFrom(path: string, current: string)
    requires '/' !in path
    ensures Segments(path, current) == if current + path == "" then [] else [current + path]
    decreases |path|
  {
    if path == "" {
      assert current + path == current;
    } else {
      SegmentsFrom(path[1..], current + [path[0]]);
      assert (current + [path[0]]) + path[1..] == current + path;
    }
  }

  /** A path is cut at its slashes and nowhere else. */
  lemma {:induction false} SegmentsSplit(a: string, b: string, current: string)
    ensures Segments(a + "/" + b, current) == Segments(a, current) + Segments(b, "")
    decreases |a|
  {
    var path := a + "/" + b;
    if a == "" {
      assert path == "/" + b && path[1..] == b;
    } else {
      assert path[0] == a[0] && path[1..] == a[1..] + "/" + b;
      if a[0] == '/' {
        SegmentsSplit(a[1..], b, "");
      } else {
        SegmentsSplit(a[1..], b, current + [a[0]]);
      }
    }
  }

  lemma {:induction false} SegmentsWhole(s: string)
    requires '/' !in s
    ensures Segments(s, "") == if s == "" then [] else [s]
  {
    SegmentsFrom(s, "");
    assert "" + s == s;
  }

  /** How many operations a document declares for the given methods. */
  function Declared(item: PathItem, verbs: seq<Method>): nat {
    if verbs == [] then 0
    else Declared(item, verbs[..|verbs| - 1]) + if verbs[|verbs| - 1] in item.operations then 1 else 0
  }

  lemma {:induction false} NamesOfContains(u: Unicode, verb: Method, paths: seq<PathItem>, j: nat)
    requires j < |paths| && verb in paths[j].operations
    ensures BaseName(u, verb, paths[j].rawPath, paths[j].operations[verb]) in NamesOf(u, verb, paths)
  {
    if j < |paths| - 1 {
      NamesOfContains(u, verb, paths[..|paths| - 1], j);
    }
  }

  lemma {:induction false} CollectContains(u: Unicode, verbs: seq<Method>, paths: seq<PathItem>, verb: Method, j: nat)
    requires verb in verbs && j < |paths| && verb in paths[j].operations
    ensures BaseName(u, verb, paths[j].rawPath, paths[j].operations[verb]) in CollectNames(u, verbs, paths)
  {
    var n := |verbs| - 1;
    if verbs[n] == verb {
      NamesOfContains(u, verb, paths, j);
    } else {
      assert verbs == verbs[..n] + [verbs[n]];
      CollectContains(u, verbs[..n], paths, verb, j);
    }
  }

  lemma {:induction false} EveryMethod(verb: Method)
    ensures verb in METHODS
  {
    match verb
    case Get => assert METHODS[0] == Get;
    case Post => assert METHODS[1] == Post;
    case Put => assert METHODS[2] == Put;
    case Delete => assert METHODS[3] == Delete;
    case Patch => assert METHODS[4] == Patch;
    case Head => assert METHODS[5] == Head;
    case Options => assert METHODS[6] == Options;
    case Query => assert METHODS[7] == Query;
  }

  /** Every operation of every path has its name: its sanitised id, or its method and the
      sanitised segments of its path. */
  lemma {:induction false} EveryOperationNamed(u: Unicode, paths: seq<PathItem>, verb: Method, j: nat)
    requires j < |paths| && verb in paths[j].operations
    ensures var id := paths[j].operations[verb];
            var names := CollectNames(u, METHODS, paths);
            && (id.Some? ==> Ident(u, id.value) in names)
            && (id.None? ==> MethodText(verb) + "_" + Joined(u, Segments(paths[j].rawPath, "")) in names)
  {
    EveryMethod(verb);
    CollectContains(u, METHODS, paths, verb, j);
  }

  function Total(verbs: seq<Method>, paths: seq<PathItem>): nat {
    if paths == [] then 0
    else Total(verbs, paths[..|paths| - 1]) + Declared(paths[|paths| - 1], verbs)
  }

  lemma {:induction false} TotalSnoc(verbs: seq<Method>, verb: Method, paths: seq<PathItem>, u: Unicode)
    ensures Total(verbs + [verb], paths) == Total(verbs, paths) + |NamesOf(u, verb, paths)|
  {
    if paths != [] {
      TotalSnoc(verbs, verb, paths[..|paths| - 1], u);
      assert (verbs + [verb])[..|verbs|] == verbs;
    }
  }

  /** And there are no others: one name per declared operation. */
  lemma {:induction false} OneNameEach(u: Unicode, verbs: seq<Method>, paths: seq<PathItem>)
    ensures |CollectNames(u, verbs, paths)| == Total(verbs, paths)
  {
    if verbs == [] {
      NothingDeclared(paths);
    } else {
      var n := |verbs| - 1;
      OneNameEach(u, verbs[..n], paths);
      assert verbs == verbs[..n] + [verbs[n]];
      TotalSnoc(verbs[..n], verbs[n], paths, u);
    }
  }

  lemma {:induction false} NothingDeclared(paths: seq<PathItem>)
    ensures Total([], paths) == 0
  {
    if paths != [] {
      NothingDeclared(paths[..|paths| - 1]);
    }
  }

  function Among(item: PathItem, verbs: seq<Method>): set<Method> {
    set v: Method | v in verbs && v in item.operations
  }

  lemma {:induction false} AmongSnoc(item: PathItem, init: seq<Method>, last: Method)
    requires last !in init
    ensures |Among(item, init + [last])| == |Among(item, init)| + if last in item.operations then 1 else 0
  {
    if last in item.operations {
      assert Among(item, init + [last]) == Among(item, init) + {last};
    } else {
      assert Among(item, init + [last]) == Among(item, init);
    }
  }

  predicate NoRepeats(verbs: seq<Method>) { forall i, j :: 0 <= i < j < |verbs| ==> verbs[i] != verbs[j] }

  lemma {:induction false} DeclaredCounts(item: PathItem, verbs: seq<Method>)
    requires NoRepeats(verbs)
    ensures Declared(item, verbs) == |Among(item, verbs)|
  {
    if verbs == [] {
      assert Among(item, verbs) == {};
    } else {
      var init, last := verbs[..|verbs| - 1], verbs[|verbs| - 1];
      DeclaredCounts(item, init);
      assert verbs == init + [last];
      AmongSnoc(item, init, last);
    }
  }

  /** Each path contributes as many names as it declares operations. */
  lemma {:induction false} DeclaredAll(item: PathItem)
    ensures Declared(item, METHODS) == |item.operations|
  {
    DeclaredCounts(item, METHODS);
    forall verb | verb in item.operations
      ensures verb in METHODS
    {
      EveryMethod(verb);
    }
    assert Among(item, METHODS) == item.operations.Keys;
  }

  /** Names are camel-cased at the gaps. */
  lemma {:induction false} CamelCase(u: Unicode)
    requires Lawful(u)
    ensures Ident(u, "list-users") == "listUsers"
  {
    var a, b := "list", "users";
    assert "list-users" == a + ['-'] + b;
    SqueezeGap(u, a, '-', b, false);
    SqueezeWord(u, a);
    SqueezeWord(u, b);
    assert a + ([Upper('u')] + b[1..]) == "listUsers";
  }

  lemma {:induction false} MethodTexts()
    ensures var texts := ["get", "post", "put", "delete", "patch", "head", "options", "query"];
            |METHODS| == |texts| && forall i :: 0 <= i < |texts| ==> MethodText(METHODS[i]) == texts[i]
  {
  }

  lemma {:induction false} TwoSegments(a: string, b: string)
    requires '/' !in a && '/' !in b && a != "" && b != ""
    ensures Segments("/" + (a + "/" + b), "") == [a, b]
  {
    var rest := a + "/" + b;
    assert "" + "/" + rest == "/" + rest;
    SegmentsSplit("", rest, "");
    SegmentsSplit(a, b, "");
    SegmentsWhole(a);
    SegmentsWhole(b);
  }

  /** Without an id the name is the method and the segments, joined by underscores. */
  lemma {:induction false} NameOfPath(u: Unicode, verb: Method, a: string, b: string)
    requires '/' !in a && '/' !in b && a != "" && b != ""
    ensures BaseName(u, verb, "/" + (a + "/" + b), None) ==
            MethodText(verb) + "_" + (Ident(u, a) + "_" + Ident(u, b))
  {
    TwoSegments(a, b);
    assert [a, b][..1] == [a];
    assert Joined(u, [a]) == Ident(u, a);
  }

  /** So `GET /users/{id}` is `get_users_Id`. */
  lemma {:induction false} UsersAndId(u: Unicode)
    requires Lawful(u)
    ensures Ident(u, "users") == "users" && Ident(u, "{id}") == "Id"
  {
    SqueezeWord(u, "users");
    var word := "id";
    assert "{id}" == "" + ['{'] + "id}" && "id}" == word + ['}'] + "";
    SqueezeGap(u, "", '{', "id}", false);
    SqueezeGap(u, word, '}', "", true);
    SqueezeWord(u, word);
    assert Squeeze(u, "{id}", false) == "Id";
  }

  // ------------------------------------------------------------------
  // De-duplication
  // ------------------------------------------------------------------

  function DigitChar(d: nat): char
    requires d < 10
  {
    '0' + d as char
  }

  function Decimal(n: nat): string {
    if n < 10 then [DigitChar(n)] else Decimal(n / 10) + [DigitChar(n % 10)]
  }

  /** How many of the first `k` names equal `key` up to ASCII case. */
  function Occurs(names: seq<string>, k: nat, key: string): nat
    requires k <= |names|
  {
    if k == 0 then 0 else Occurs(names, k - 1, key) + if Lower(names[k - 1]) == key then 1 else 0
  }

  function Indexed(name: string, n: nat): string {
    if n == 0 then name else name + "_" + Decimal(n)
  }

  /** The final name of operation `i`: indexed by the number of earlier clashes. */
  function FinalName(names: seq<string>, i: nat): string
    requires i < |names|
  {
    Indexed(names[i], Occurs(names, i, Lower(names[i])))
  }

  /** The renaming loop of `collect_ops`. */
  method Deduplicate(names: seq<string>) returns (out: seq<string>)
    ensures |out| == |names|
    ensures forall i :: 0 <= i < |names| ==> out[i] == FinalName(names, i)
  {
    out := names;
    var seen: map<string, nat> := map[];
    var i := 0;
    while i < |names|
      invariant 0 <= i <= |names| == |out|
      invariant forall j :: 0 <= j < i ==> out[j] == FinalName(names, j)
      invariant forall j :: i <= j < |names| ==> out[j] == names[j]
      invariant forall key :: Occurs(names, i, key) == if key in seen then seen[key] else 0
    {
      var key := Lower(out[i]);
      var count := if key in seen then seen[key] else 0;
      if count > 0 {
        out := out[i := out[i] + "_" + Decimal(count)];
      }
      seen := seen[key := count + 1];
      i := i + 1;
    }
  }

  lemma {:induction false} DecimalDigits(n: nat)
    ensures Decimal(n) != "" && forall i :: 0 <= i < |Decimal(n)| ==> IsDigit(Decimal(n)[i])
  {
    if n >= 10 {
      DecimalDigits(n / 10);
    }
  }

  lemma {:induction false} DecimalInjective(a: nat, b: nat)
    requires Decimal(a) == Decimal(b)
    ensures a == b
  {
    var x, y := Decimal(a), Decimal(b);
    DecimalDigits(a / 10);
    DecimalDigits(b / 10);
    assert x[|x| - 1] == DigitChar(a % 10) && y[|y| - 1] == DigitChar(b % 10);
    if a >= 10 && b >= 10 {
      assert x[..|x| - 1] == Decimal(a / 10) && y[..|y| - 1] == Decimal(b / 10);
      DecimalInjective(a / 10, b / 10);
    }
  }

  function DecimalValue(s: string): int {
    if s == "" then 0 else 10 * DecimalValue(s[..|s| - 1]) + (s[|s| - 1] as int - '0' as int)
  }

  /** The printed index reads back as itself. */
  lemma {:induction false} DecimalReads(n: nat)
    ensures DecimalValue(Decimal(n)) == n
  {
    var d := Decimal(n);
    if n < 10 {
      assert d[..0] == "";
    } else {
      DecimalReads(n / 10);
      assert d[..|d| - 1] == Decimal(n / 10);
    }
  }

  /** The earlier names that are the same up to case. */
  function Clashes(names: seq<string>, k: nat, key: string): set<nat>
    requires k <= |names|
  {
    set j: nat | 0 <= j < k && Lower(names[j]) == key
  }

  lemma {:induction false} ClashesGrow(names: seq<string>, k: nat, key: string)
    requires k < |names|
    ensures |Clashes(names, k + 1, key)| == |Clashes(names, k, key)| + if Lower(names[k]) == key then 1 else 0
  {
    if Lower(names[k]) == key {
      assert Clashes(names, k + 1, key) == Clashes(names, k, key) + {k};
    } else {
      assert Clashes(names, k + 1, key) == Clashes(names, k, key);
    }
  }

  lemma {:induction false} OccursCounts(names: seq<string>, k: nat, key: string)
    requires k <= |names|
    ensures Occurs(names, k, key) == |Clashes(names, k, key)|
  {
    if k == 0 {
      assert Clashes(names, k, key) == {};
    } else {
      OccursCounts(names, k - 1, key);
      ClashesGrow(names, k - 1, key);
    }
  }

  /** A name without an earlier clash is kept; any other gets its number of clashes behind
      an underscore. */
  lemma {:induction false} FinalNameIs(names: seq<string>, i: nat)
    requires i < |names|
    ensures var clashes := Clashes(names, i, Lower(names[i]));
            if clashes == {} then FinalName(names, i) == names[i]
            else exists d :: FinalName(names, i) == names[i] + "_" + d && DecimalValue(d) == |clashes|
  {
    OccursCounts(names, i, Lower(names[i]));
    DecimalReads(Occurs(names, i, Lower(names[i])));
  }

  ghost predicate Digits(s: string) { forall i :: 0 <= i < |s| ==> IsDigit(s[i]) }

  /** A name and a numeric index cannot be cut apart in two ways. */
  lemma {:induction false} CutUnique(a: string, d: string, b: string, e: string)
    requires Digits(d) && Digits(e) && a + "_" + d == b + "_" + e
    ensures a == b && d == e
  {
    var s := a + "_" + d;
    assert s[|a|] == '_' && s[|b|] == '_';
    assert forall i :: |a| < i < |s| ==> s[i] == d[i - |a| - 1];
    assert forall i :: |b| < i < |s| ==> s[i] == e[i - |b| - 1];
    assert |a| == |b|;
    assert a == s[..|a|] == b;
    assert d == s[|a| + 1..] == e;
  }

  lemma {:induction false} LowerConcat(a: string, b: string)
    ensures Lower(a + b) == Lower(a) + Lower(b)
  {
  }

  lemma {:induction false} LowerDigits(s: string)
    requires Digits(s)
    ensures Lower(s) == s
  {
  }

  lemma {:induction false} LowerIndexed(name: string, n: nat)
    ensures Digits(Decimal(n))
    ensures n > 0 ==> Lower(Indexed(name, n)) == Lower(name) + "_" + Decimal(n)
    ensures n > 0 ==> !EndsWithoutDigit(Lower(Indexed(name, n)))
  {
    var d := Decimal(n);
    DecimalDigits(n);
    LowerDigits(d);
    LowerConcat(name + "_", d);
    LowerConcat(name, "_");
    assert Lower("_") == "_";
    EndsInDigit(Lower(name) + "_", d);
  }

  lemma {:induction false} EndsInDigit(a: string, d: string)
    requires Digits(d) && d != ""
    ensures !EndsWithoutDigit(a + d)
  {
    assert (a + d)[|a + d| - 1] == d[|d| - 1];
  }

  /** Lower-casing forgets the case of ASCII letters and nothing else. */
  lemma {:induction false} SameUpToCase(a: char, b: char)
    ensures LowerChar(a) == LowerChar(b) <==>
            a == b || (IsUpper(a) && b as int == a as int + 32) || (IsLower(a) && a as int == b as int + 32)
  {
  }

  lemma {:induction false} LowerKeepsEnd(name: string)
    requires EndsWithoutDigit(name)
    ensures EndsWithoutDigit(Lower(name))
  {
  }

  /** Two names with their indices agree up to case only if both parts do. */
  lemma {:induction false} IndexedDistinct(a: string, n: nat, b: string, m: nat)
    requires EndsWithoutDigit(a) && EndsWithoutDigit(b)
    requires Lower(Indexed(a, n)) == Lower(Indexed(b, m))
    ensures Lower(a) == Lower(b) && n == m
  {
    LowerIndexed(a, n);
    LowerIndexed(b, m);
    LowerKeepsEnd(a);
    LowerKeepsEnd(b);
    if n > 0 && m > 0 {
      CutUnique(Lower(a), Decimal(n), Lower(b), Decimal(m));
      DecimalInjective(n, m);
    }
  }

  lemma {:induction false} OccursGrows(names: seq<string>, i: nat, j: nat)
    requires i < j <= |names|
    ensures Occurs(names, i, Lower(names[i])) < Occurs(names, j, Lower(names[i]))
    decreases j
  {
    if j > i + 1 {
      OccursGrows(names, i, j - 1);
    }
  }

  /** Names that do not end in a digit come out pairwise distinct, ASCII case ignored. */
  lemma {:induction false} FinalNamesDistinct(names: seq<string>, i: nat, j: nat)
    requires AllEndWithoutDigit(names) && i < j < |names|
    ensures Lower(FinalName(names, i)) != Lower(FinalName(names, j))
  {
    if Lower(FinalName(names, i)) == Lower(FinalName(names, j)) {
      IndexedDistinct(names[i], Occurs(names, i, Lower(names[i])), names[j], Occurs(names, j, Lower(names[j])));
      OccursGrows(names, i, j);
      assert false;
    }
  }

  /** For every document the generated method names are pairwise distinct, ASCII case
      ignored, and there is one for every operation, in order. */
  method MethodNames(u: Unicode, paths: seq<PathItem>) returns (out: seq<string>)
    requires Lawful(u)
    ensures var names := CollectNames(u, METHODS, paths);
            |out| == |names| && forall i :: 0 <= i < |names| ==> out[i] == FinalName(names, i)
    ensures forall i, j :: 0 <= i < j < |out| ==> Lower(out[i]) != Lower(out[j])
  {
    var names := CollectNames(u, METHODS, paths);
    CollectNamesOk(u, METHODS, paths);
    out := Deduplicate(names);
    forall i, j | 0 <= i < j < |out|
      ensures Lower(out[i]) != Lower(out[j])
    {
      FinalNamesDistinct(names, i, j);
    }
  }

  /** It does rest on sanitising: a raw name ending in an index can meet an indexed one. */
  lemma {:induction false} DigitEndingsClash()
    ensures var names := ["a", "a", "a_1"];
            FinalName(names, 1) == FinalName(names, 2)
  {
    var names := ["a", "a", "a_1"];
    assert Lower("a") == "a" && Lower("a_1") == "a_1";
    assert Occurs(names, 0, "a") == 0 && Occurs(names, 1, "a") == 1;
    assert Occurs(names, 0, "a_1") == 0 && Occurs(names, 1, "a_1") == 0 && Occurs(names, 2, "a_1") == 0;
    assert Decimal(1) == "1";
  }
}
