/** Path text: splitting, 8.3 name checks and the canonical absolute form. */
module Path {
  import opened Common
  import opened Errors

  const PATH_CAPACITY := 256
  const NAME_CAPACITY := 64
  const TOKEN_LIMIT := 128

  // ----- Names -----------------------------------------------------------------------

  predicate ValidByte(c: char) {
    'a' <= c <= 'z' || 'A' <= c <= 'Z' || '0' <= c <= '9' || c == '.' || c == '_' || c == '-'
  }

  /** `k` is the length of the base: everything else is plain, and any extension
      has one to three characters after a dot. */
  predicate BaseOf(name: string, k: nat) {
    && 1 <= k <= 8 && k <= |name|
    && (k < |name| ==> name[k] == '.' && 2 <= |name| - k <= 4)
    && forall i :: 0 <= i < |name| && i != k ==> ValidByte(name[i]) && name[i] != '.'
  }

  /** A base of one to eight characters and an optional extension of one to three. */
  predicate Is83(name: string) {
    exists k :: 0 <= k <= 8 && BaseOf(name, k)
  }

  lemma BaseUnique(name: string, k: nat, at: nat)
    requires BaseOf(name, k) && at < |name|
    ensures name[at] == '.' <==> at == k
    ensures ValidByte(name[at])
  {
  }

  /** Accepts exactly the 8.3 names. */
  method CheckName(name: string) returns (error: FsError)
    ensures error in {Ok, Invalid, NameTooLong}
    ensures error == Ok <==> Is83(name)
  {
    ghost var valid := Is83(name);
    ghost var k := if valid then BaseLength(name) else 0;
    if name == "" || name == "." || name == ".." {
      assert name == "" || name[0] == '.';
      return Invalid;
    }
    var base, extension, dot := 0, 0, false;
    var i := 0;
    while i < |name|
      invariant 0 <= i <= |name|
      invariant !dot ==> base == i && extension == 0 && i <= 8
      invariant dot ==> 1 <= base <= 8 && base < i && name[base] == '.' && extension == i - base - 1 <= 3
      invariant forall j :: 0 <= j < i && (!dot || j != base) ==> ValidByte(name[j]) && name[j] != '.'
    {
      if valid { BaseUnique(name, k, i); }
      if i >= NAME_CAPACITY - 1 { return NameTooLong; }
      if !ValidByte(name[i]) { return Invalid; }
      if name[i] == '.' {
        if dot || base == 0 { return Invalid; }
        dot := true;
      } else if dot {
        extension := extension + 1;
        if extension > 3 { return NameTooLong; }
      } else {
        base := base + 1;
        if base > 8 { return NameTooLong; }
      }
      i := i + 1;
    }
    if dot && extension == 0 { return Invalid; }
    assert BaseOf(name, base);
    return Ok;
  }

  ghost function BaseLength(name: string): (k: nat)
    requires Is83(name)
    ensures BaseOf(name, k)
  {
    var k: nat :| BaseOf(name, k);
    k
  }

  lemma ShortNames(name: string)
    requires Is83(name)
    ensures 1 <= |name| <= 12 && '/' !in name && name[0] != '.'
    ensures forall i :: 0 <= i < |name| ==> ValidByte(name[i])
  {
    var k := BaseLength(name);
    forall i | 0 <= i < |name|
      ensures ValidByte(name[i])
    {
      BaseUnique(name, k, i);
    }
  }

  function Upper(c: char): char {
    if 'a' <= c <= 'z' then c - 'a' + 'A' else c
  }

  function UpperName(s: string): (r: string)
    ensures |r| == |s|
  {
    seq(|s|, i requires 0 <= i < |s| => Upper(s[i]))
  }

  predicate IsUpper(s: string) {
    forall i :: 0 <= i < |s| ==> !('a' <= s[i] <= 'z')
  }

  /** An upper-case 8.3 name: the only spelling that reaches a directory lookup. */
  predicate Canonical(name: string) { Is83(name) && IsUpper(name) }

  lemma UpperCanonical(name: string)
    requires Is83(name)
    ensures Canonical(UpperName(name))
  {
    var k := BaseLength(name);
    assert BaseOf(UpperName(name), k);
  }

  lemma UpperFixed(name: string)
    requires IsUpper(name)
    ensures UpperName(name) == name
  {
  }

  // ----- Splitting ----------------------------------------------------------------------

  function TokenEnd(s: string, i: nat): (j: nat)
    requires i <= |s|
    ensures i <= j <= |s| && (forall k :: i <= k < j ==> s[k] != '/') && (j < |s| ==> s[j] == '/')
    decreases |s| - i
  {
    if i == |s| || s[i] == '/' then i else TokenEnd(s, i + 1)
  }

  /** The non-empty pieces of `s[i..]` between slashes. */
  function SplitFrom(s: string, i: nat): seq<string>
    requires i <= |s|
    decreases |s| - i
  {
    if i == |s| then []
    else if s[i] == '/' then SplitFrom(s, i + 1)
    else
      var j := TokenEnd(s, i);
      [s[i..j]] + SplitFrom(s, j)
  }

  datatype Tokens = Tokens(names: seq<string>, absolute: bool, directory: bool)

  predicate TooLong(names: seq<string>) {
    exists i :: 0 <= i < |names| && |names[i]| >= NAME_CAPACITY
  }

  predicate BadByte(s: string) {
    exists i :: 0 <= i < |s| && i < PATH_CAPACITY && s[i] != '/' && !ValidByte(s[i])
  }

  /** What a path means before names are checked. */
  function Tokenize(s: string): Result<Tokens> {
    if s == "" || BadByte(s) then Failure(Invalid)
    else if |s| >= PATH_CAPACITY then Failure(PathTooLong)
    else
      var names := SplitFrom(s, 0);
      if TooLong(names) then Failure(NameTooLong)
      else Success(Tokens(names, s[0] == '/',
                          s[|s| - 1] == '/' || (names != [] && names[|names| - 1] in {".", ".."})))
  }

  /** A path that can only name a directory: it ends in a slash, "." or "..". */
  ghost predicate WantsDirectory(s: string) {
    Tokenize(s).Success? && Tokenize(s).value.directory
  }

  /** At most one token per two characters, so the token table never overflows. */
  lemma {:induction false} FewTokens(s: string, i: nat)
    requires i <= |s|
    ensures 2 * |SplitFrom(s, i)| <= |s| - i + 1
    decreases |s| - i
  {
    if i < |s| {
      if s[i] == '/' {
        FewTokens(s, i + 1);
      } else {
        var j := TokenEnd(s, i);
        if j < |s| { FewTokens(s, j + 1); }
      }
    }
  }

  method SkipSlashes(s: string, from: nat) returns (i: nat)
    requires from < |s|
    ensures from <= i <= |s| && SplitFrom(s, i) == SplitFrom(s, from) && (i < |s| ==> s[i] != '/')
  {
    hide SplitFrom;
    i := from;
    while i < |s| && s[i] == '/'
      invariant from <= i <= |s| && SplitFrom(s, i) == SplitFrom(s, from)
    {
      SplitSlash(s, i);
      i := i + 1;
    }
  }

  method SkipToken(s: string, from: nat) returns (i: nat)
    requires from < |s| && s[from] != '/'
    ensures i == TokenEnd(s, from) && from < i
  {
    i := from;
    while i < |s| && s[i] != '/'
      invariant from <= i <= |s| && TokenEnd(s, i) == TokenEnd(s, from)
      invariant i == from ==> s[i] != '/'
    {
      i := i + 1;
    }
  }

  lemma SplitStep(s: string, start: nat)
    requires start < |s| && s[start] != '/'
    ensures var j := TokenEnd(s, start);
      && SplitFrom(s, start) == [s[start..j]] + SplitFrom(s, j)
      && (j < |s| ==> SplitFrom(s, j) == SplitFrom(s, j + 1))
  {
  }

  /** Cut the text into names; fails exactly when one of them is too long. */
  method Cut(s: string) returns (r: Result<seq<string>>)
    requires |s| < PATH_CAPACITY
    ensures r == if TooLong(SplitFrom(s, 0)) then Failure(NameTooLong) else Success(SplitFrom(s, 0))
  {
    hide SplitFrom, TokenEnd;
    var names: seq<string> := [];
    var i: nat := 0;
    FewTokens(s, 0);
    while i < |s|
      invariant i <= |s|
      invariant names + SplitFrom(s, i) == SplitFrom(s, 0)
      invariant !TooLong(names)
      decreases |s| - i
    {
      i := SkipSlashes(s, i);
      if i == |s| { break; }
      var start := i;
      i := SkipToken(s, start);
      SplitStep(s, start);
      ghost var token := s[start..i];
      assert names + SplitFrom(s, start) == (names + [token]) + SplitFrom(s, i);
      if |names| == TOKEN_LIMIT { return Failure(TooDeep); }
      if i - start >= NAME_CAPACITY {
        assert SplitFrom(s, 0)[|names|] == token;
        return Failure(NameTooLong);
      }
      names := names + [s[start..i]];
      if i < |s| { i := i + 1; }
    }
    SplitEnd(s);
    assert names + [] == names;
    return Success(names);
  }

  lemma SplitEnd(s: string)
    ensures SplitFrom(s, |s|) == []
  {
  }

  method Collect(s: string) returns (r: Result<Tokens>)
    ensures r == Tokenize(s)
  {
    hide SplitFrom;
    if s == "" { return Failure(Invalid); }
    var length := 0;
    while length < PATH_CAPACITY && length < |s|
      invariant 0 <= length <= |s| && length <= PATH_CAPACITY
      invariant forall i :: 0 <= i < length ==> s[i] == '/' || ValidByte(s[i])
    {
      if s[length] != '/' && !ValidByte(s[length]) { return Failure(Invalid); }
      length := length + 1;
    }
    if length == PATH_CAPACITY { return Failure(PathTooLong); }
    var cut := Cut(s);
    if cut.Failure? { return Failure(cut.error); }
    var names := cut.value;
    var directory := s[length - 1] == '/';
    if names != [] {
      var last := names[|names| - 1];
      directory := directory || last == "." || last == "..";
    }
    return Success(Tokens(names, s[0] == '/', directory));
  }

  // ----- Canonical form -------------------------------------------------------------------

  /** One component applied to the names below the root; ".." stops there. */
  ghost function Step(stack: seq<string>, name: string): Option<seq<string>> {
    if name == "." then Some(stack)
    else if name == ".." then Some(if stack == [] then [] else stack[..|stack| - 1])
    else if !Is83(name) || |stack| >= PATH_DEPTH then None
    else Some(stack + [UpperName(name)])
  }

  ghost function Resolved(stack: seq<string>, names: seq<string>): Option<seq<string>>
    decreases |names|
  {
    if names == [] then Some(stack)
    else match Resolved(stack, names[..|names| - 1])
      case None => None
      case Some(before) => Step(before, names[|names| - 1])
  }

  function Render(stack: seq<string>): string {
    if stack == [] then "/"
    else
      var before := Render(stack[..|stack| - 1]);
      before + (if |stack| > 1 then "/" else "") + stack[|stack| - 1]
  }

  /** At most sixteen upper-case 8.3 names. */
  predicate NormalForm(stack: seq<string>) {
    |stack| <= PATH_DEPTH && forall i :: 0 <= i < |stack| ==> Canonical(stack[i])
  }

  lemma DotsStep(stack: seq<string>)
    ensures Step(stack, ".") == Some(stack)
    ensures Step(stack, "..") == Some(if stack == [] then [] else stack[..|stack| - 1])
  {
  }

  lemma StepNormal(stack: seq<string>, name: string)
    requires NormalForm(stack) && Step(stack, name).Some?
    ensures NormalForm(Step(stack, name).value)
  {
    if name != "." && name != ".." { UpperCanonical(name); }
  }

  lemma {:induction false} ResolvedNormal(stack: seq<string>, names: seq<string>)
    requires NormalForm(stack) && Resolved(stack, names).Some?
    ensures NormalForm(Resolved(stack, names).value)
    decreases |names|
  {
    if names != [] {
      ResolvedNormal(stack, names[..|names| - 1]);
      StepNormal(Resolved(stack, names[..|names| - 1]).value, names[|names| - 1]);
    }
  }

  lemma {:induction false} RenderLength(stack: seq<string>)
    requires NormalForm(stack)
    ensures 1 <= |Render(stack)| <= 13 * |stack| + 1 && Render(stack)[0] == '/'
    ensures stack != [] ==> 1 < |Render(stack)| <= 13 * |stack|
    decreases |stack|
  {
    if stack != [] {
      RenderLength(stack[..|stack| - 1]);
      ShortNames(stack[|stack| - 1]);
    }
  }

  /** The growing canonical text with the length before each component. */
  datatype Buffer = Buffer(text: string, previous: seq<nat>)

  ghost predicate Holds(buffer: Buffer, stack: seq<string>) {
    && buffer.text == Render(stack)
    && |buffer.previous| == |stack|
    && forall i :: 0 <= i < |stack| ==> buffer.previous[i] == |Render(stack[..i])|
  }

  function Spelled(name: string): string {
    if name == "." || name == ".." then name else UpperName(name)
  }

  function Respelled(names: seq<string>): (r: seq<string>)
    ensures |r| == |names|
  {
    seq(|names|, i requires 0 <= i < |names| => Spelled(names[i]))
  }

  lemma {:induction false} RenderPrefix(stack: seq<string>)
    requires stack != []
    ensures var before := Render(stack[..|stack| - 1]);
      |before| <= |Render(stack)| && Render(stack)[..|before|] == before
  {
  }

  /** Drop the last component, if there is one. */
  method Pop(buffer: Buffer, ghost stack: seq<string>) returns (r: Buffer)
    requires Holds(buffer, stack)
    ensures Holds(r, Step(stack, "..").value)
  {
    r := buffer;
    if buffer.previous != [] {
      var top := |buffer.previous| - 1;
      RenderPrefix(stack);
      r := Buffer(buffer.text[..buffer.previous[top]], buffer.previous[..top]);
      assert forall j :: 0 <= j < top ==> stack[..top][..j] == stack[..j];
    }
  }

  /** Check a name, fold its case and append it. The length test never fails. */
  method Push(buffer: Buffer, name: string, ghost stack: seq<string>) returns (error: FsError, r: Buffer)
    requires Holds(buffer, stack) && NormalForm(stack) && name != "." && name != ".."
    ensures error == Ok <==> Step(stack, name).Some?
    ensures error == Ok ==> Holds(r, Step(stack, name).value)
  {
    hide Render, Is83;
    r := buffer;
    error := CheckName(name);
    if error != Ok { return; }
    if |buffer.previous| == PATH_DEPTH { return TooDeep, buffer; }
    RenderLength(stack);
    ShortNames(name);
    var upper := UpperName(name);
    var slash := if |buffer.text| > 1 then "/" else "";
    if |upper| >= PATH_CAPACITY - |buffer.text| - |slash| { return PathTooLong, buffer; }
    PushHolds(buffer, stack, upper);
    r := Buffer(buffer.text + slash + upper, buffer.previous + [|buffer.text|]);
  }

  method Apply(start: Buffer, names: seq<string>, ghost stack: seq<string>)
    returns (error: FsError, buffer: Buffer, spelled: seq<string>)
    requires NormalForm(stack) && Holds(start, stack)
    ensures error == Ok <==> Resolved(stack, names).Some?
    ensures error == Ok ==> Holds(buffer, Resolved(stack, names).value)
    ensures error == Ok ==> spelled == Respelled(names)
  {
    hide Render, Is83, Holds, UpperName, Resolved;
    error, buffer, spelled := Ok, start, [];
    ghost var now := stack;
    assert names[..0] == [];
    ResolvedNothing(stack);
    for i := 0 to |names|
      invariant error == Ok && |spelled| == i && forall j :: 0 <= j < i ==> spelled[j] == Spelled(names[j])
      invariant Resolved(stack, names[..i]) == Some(now) && NormalForm(now) && Holds(buffer, now)
    {
      var name := names[i];
      ResolvedFails(stack, names, i);
      ghost var next := Step(now, name);
      if next.Some? { StepNormal(now, name); }
      if name == "." {
      } else if name == ".." {
        buffer := Pop(buffer, now);
      } else {
        error, buffer := Push(buffer, name, now);
        if error != Ok { return; }
      }
      now := next.value;
      spelled := spelled + [Spelled(name)];
    }
    assert names[..|names|] == names;
    assert spelled == Respelled(names);
  }

  lemma ResolvedNothing(stack: seq<string>)
    ensures Resolved(stack, []) == Some(stack)
  {
  }

  lemma PushHolds(buffer: Buffer, stack: seq<string>, name: string)
    requires Holds(buffer, stack) && NormalForm(stack)
    ensures
      Holds(Buffer(buffer.text + (if |buffer.text| > 1 then "/" else "") + name, buffer.previous + [|buffer.text|]),
            stack + [name])
  {
    RenderLength(stack);
    var more := stack + [name];
    assert more[..|stack|] == stack;
    assert forall i :: 0 <= i < |stack| ==> more[..i] == stack[..i];
  }

  lemma {:induction false} ResolvedFails(stack: seq<string>, names: seq<string>, i: nat)
    requires i < |names| && Resolved(stack, names[..i]).Some?
    ensures Step(Resolved(stack, names[..i]).value, names[i]) == None ==> Resolved(stack, names) == None
    ensures Step(Resolved(stack, names[..i]).value, names[i]).Some? ==>
      Resolved(stack, names[..i + 1]) == Step(Resolved(stack, names[..i]).value, names[i])
    decreases |names|
  {
    if i < |names| - 1 {
      var shorter := names[..|names| - 1];
      assert shorter[..i] == names[..i] && shorter[..i + 1] == names[..i + 1];
      ResolvedFails(stack, shorter, i);
    } else {
      assert names[..i + 1] == names;
    }
  }

  // ----- The parser ------------------------------------------------------------------------

  datatype Parsed = Parsed(base: Tokens, input: Tokens, canonical: string, depth: nat)

  /** The names a path denotes relative to a base directory; None if rejected. */
  ghost function Denotes(base: string, input: string): Option<seq<string>> {
    match (Tokenize(base), Tokenize(input))
    case (Success(b), Success(t)) =>
      if !b.absolute then None
      else (match Resolved([], b.names)
        case None => None
        case Some(cwd) => Resolved(if t.absolute then [] else cwd, t.names))
    case _ => None
  }

  /** The names the base and the first `count` components of the input denote. */
  ghost function DenotesUpTo(base: string, input: string, count: nat): Option<seq<string>> {
    match (Tokenize(base), Tokenize(input))
    case (Success(b), Success(t)) =>
      if !b.absolute || count > |t.names| then None
      else (match Resolved([], b.names)
        case None => None
        case Some(cwd) => Resolved(if t.absolute then [] else cwd, t.names[..count]))
    case _ => None
  }

  lemma TokenizeError(s: string)
    ensures Tokenize(s).Failure? ==> Tokenize(s).error != Ok
  {
  }

  method Parse(base: string, input: string) returns (r: Result<Parsed>)
    ensures r.Success? <==> Denotes(base, input).Some?
    ensures r.Failure? ==> r.error != Ok
    ensures r.Success? ==> r.value.canonical == Render(Denotes(base, input).value)
    ensures r.Success? ==> r.value.depth == |Denotes(base, input).value|
    ensures r.Success? ==>
      && r.value.base == Tokenize(base).value.(names := Respelled(Tokenize(base).value.names))
      && r.value.input == Tokenize(input).value.(names := Respelled(Tokenize(input).value.names))
  {
    hide Tokenize, Render, Resolved;
    TokenizeError(base);
    TokenizeError(input);
    var b := Collect(base);
    if b.Failure? { return Failure(b.error); }
    if !b.value.absolute { return Failure(Invalid); }
    var t := Collect(input);
    if t.Failure? { return Failure(t.error); }
    RenderRoot();
    var empty := Buffer("/", []);
    var error, buffer, baseNames := Apply(empty, b.value.names, []);
    if error != Ok { return Failure(error); }
    ghost var cwd := Resolved([], b.value.names).value;
    ResolvedNormal([], b.value.names);
    if t.value.absolute { buffer := empty; }
    ghost var from := if t.value.absolute then [] else cwd;
    var inputNames;
    error, buffer, inputNames := Apply(buffer, t.value.names, from);
    if error != Ok { return Failure(error); }
    return Success(Parsed(b.value.(names := baseNames), t.value.(names := inputNames), buffer.text, |buffer.previous|));
  }

  lemma RenderRoot()
    ensures Render([]) == "/"
  {
  }

  /** Every accepted path has a normal form that fits the buffer. */
  lemma ParseNormalForm(base: string, input: string)
    requires Denotes(base, input).Some?
    ensures var stack := Denotes(base, input).value;
      NormalForm(stack) && |Render(stack)| < PATH_CAPACITY && Render(stack)[0] == '/'
  {
    var b, t := Tokenize(base).value, Tokenize(input).value;
    ResolvedNormal([], b.names);
    ResolvedNormal(if t.absolute then [] else Resolved([], b.names).value, t.names);
    RenderLength(Denotes(base, input).value);
  }

  // ----- Round trips --------------------------------------------------------------------------

  lemma {:induction false} TokenEndIn(s: string, suffix: string, i: nat)
    requires i <= |s| && (suffix == "" || suffix[0] == '/')
    ensures TokenEnd(s + suffix, i) == TokenEnd(s, i)
    decreases |s| - i
  {
    if i < |s| && s[i] != '/' { TokenEndIn(s, suffix, i + 1); }
  }

  lemma {:induction false} TokenEndAll(s: string, i: nat)
    requires i <= |s| && '/' !in s[i..]
    ensures TokenEnd(s, i) == |s|
    decreases |s| - i
  {
    if i < |s| {
      assert s[i..] == [s[i]] + s[i + 1..];
      TokenEndAll(s, i + 1);
    }
  }

  /** Appending "/name" appends one token. */
  lemma {:induction false} SplitAppend(s: string, name: string, i: nat)
    requires i <= |s| && name != "" && '/' !in name
    ensures SplitFrom(s + "/" + name, i) == SplitFrom(s, i) + [name]
    decreases |s| - i
  {
    var whole := s + "/" + name;
    assert whole == s + ("/" + name);
    if i == |s| {
      SplitTail(s, name);
    } else if s[i] == '/' {
      SplitAppend(s, name, i + 1);
    } else {
      TokenEndIn(s, "/" + name, i);
      var j := TokenEnd(s, i);
      SplitAppend(s, name, j);
      assert whole[i..j] == s[i..j];
    }
  }

  lemma SplitTail(s: string, name: string)
    requires name != "" && '/' !in name
    ensures SplitFrom(s + "/" + name, |s|) == [name]
  {
    hide SplitFrom, TokenEnd;
    var whole := s + "/" + name;
    var at := |s| + 1;
    assert whole[at..] == name && whole[|s|] == '/' && whole[at] == name[0];
    TokenEndAll(whole, at);
    SplitStep(whole, at);
    SplitEnd(whole);
    assert whole[at..|whole|] == name;
    SplitSlash(whole, |s|);
    assert [name] + [] == [name];
  }

  lemma SplitSlash(s: string, i: nat)
    requires i < |s| && s[i] == '/'
    ensures SplitFrom(s, i) == SplitFrom(s, i + 1)
  {
  }

  /** Rendering and splitting are inverse on names without slashes. */
  lemma {:induction false} SplitRender(stack: seq<string>)
    requires NormalForm(stack)
    ensures SplitFrom(Render(stack), 0) == stack
    decreases |stack|
  {
    if stack == [] {
      assert SplitFrom("/", 1) == [];
    } else {
      var before, name := stack[..|stack| - 1], stack[|stack| - 1];
      ShortNames(name);
      SplitRender(before);
      if |stack| == 1 {
        SplitAppend("", name, 0);
        assert Render(stack) == "" + "/" + name;
      } else {
        SplitAppend(Render(before), name, 0);
      }
      assert stack == before + [name];
    }
  }

  lemma {:induction false} RenderBytes(stack: seq<string>)
    requires NormalForm(stack)
    ensures forall i :: 0 <= i < |Render(stack)| ==> Render(stack)[i] == '/' || ValidByte(Render(stack)[i])
    decreases |stack|
  {
    if stack != [] {
      RenderBytes(stack[..|stack| - 1]);
      ShortNames(stack[|stack| - 1]);
    }
  }

  /** Canonical text is accepted and splits back into its names. */
  lemma TokenizeRender(stack: seq<string>)
    requires NormalForm(stack)
    ensures Tokenize(Render(stack)).Success?
    ensures Tokenize(Render(stack)).value.names == stack && Tokenize(Render(stack)).value.absolute
  {
    SplitRender(stack);
    RenderLength(stack);
    RenderBytes(stack);
    forall i | 0 <= i < |stack|
      ensures |stack[i]| < NAME_CAPACITY
    {
      ShortNames(stack[i]);
    }
  }

  lemma {:induction false} ResolvedCanonical(stack: seq<string>)
    requires NormalForm(stack)
    ensures Resolved([], stack) == Some(stack)
    decreases |stack|
  {
    if stack != [] {
      var before, name := stack[..|stack| - 1], stack[|stack| - 1];
      ResolvedCanonical(before);
      ShortNames(name);
      UpperFixed(name);
      assert stack == before + [name];
    }
  }

  /** Parsing the canonical text gives it back, whatever the base directory. */
  lemma ParseCanonical(base: string, stack: seq<string>)
    requires NormalForm(stack) && Denotes(base, "/").Some?
    ensures Denotes(base, Render(stack)) == Some(stack)
  {
    TokenizeRender(stack);
    ResolvedCanonical(stack);
  }

  /** A base may be replaced by its canonical form without changing any result. */
  lemma BaseCanonical(base: string, input: string, cwd: seq<string>)
    requires Tokenize(base).Success? && Tokenize(base).value.absolute
    requires Resolved([], Tokenize(base).value.names) == Some(cwd)
    ensures Denotes(Render(cwd), input) == Denotes(base, input)
  {
    ResolvedNormal([], Tokenize(base).value.names);
    TokenizeRender(cwd);
    ResolvedCanonical(cwd);
  }

  // ----- Spelled components -------------------------------------------------------------------

  /** A component as the parser leaves it: a dot, two dots, or a canonical name. */
  ghost predicate Component(name: string) { name == "." || name == ".." || Canonical(name) }

  lemma SpelledStep(stack: seq<string>, name: string)
    requires Step(stack, name).Some?
    ensures Component(Spelled(name)) && Step(stack, Spelled(name)) == Step(stack, name)
  {
    if name != "." && name != ".." {
      UpperCanonical(name);
      ShortNames(UpperName(name));
      UpperFixed(UpperName(name));
    }
  }

  /** Respelling the components changes nothing the path denotes. */
  lemma {:induction false} ResolvedSpelled(stack: seq<string>, names: seq<string>)
    requires Resolved(stack, names).Some?
    ensures Resolved(stack, Respelled(names)) == Resolved(stack, names)
    ensures forall i :: 0 <= i < |names| ==> Component(Respelled(names)[i])
    decreases |names|
  {
    hide Step, Canonical;
    if names != [] {
      var front, last := names[..|names| - 1], names[|names| - 1];
      ResolvedSpelled(stack, front);
      SpelledStep(Resolved(stack, front).value, last);
      assert Respelled(names)[..|names| - 1] == Respelled(front);
    }
  }

  /** A part of what can be resolved can be resolved, respelled or not. */
  lemma {:induction false} ResolvedPart(stack: seq<string>, names: seq<string>, count: nat)
    requires Resolved(stack, names).Some? && count <= |names|
    ensures Resolved(stack, names[..count]).Some?
    ensures Resolved(stack, Respelled(names)[..count]) == Resolved(stack, names[..count])
    decreases |names|
  {
    hide Step;
    if count == |names| {
      assert names[..count] == names && Respelled(names)[..count] == Respelled(names);
      ResolvedSpelled(stack, names);
    } else {
      var front := names[..|names| - 1];
      assert front[..count] == names[..count] && Respelled(names)[..count] == Respelled(front)[..count];
      ResolvedPart(stack, front, count);
    }
  }

  /** A path that ends in a name denotes the names before it and that name. */
  lemma DenotesParent(base: string, input: string)
    requires Denotes(base, input).Some? && Tokenize(input).value.names != []
    requires LastName(input) != "." && LastName(input) != ".."
    ensures var before := DenotesUpTo(base, input, |Tokenize(input).value.names| - 1);
      before.Some? && Denotes(base, input) == Some(before.value + [LastName(input)])
  {
    hide Tokenize, Resolved, UpperName, SplitFrom, Is83;
    TokenizeNames(input);
    var names := Tokenize(input).value.names;
    var start := if Tokenize(input).value.absolute then [] else Resolved([], Tokenize(base).value.names).value;
    ResolvedLast(start, names);
  }

  lemma TokenizeNames(input: string)
    requires Tokenize(input).Success?
    ensures Tokenize(input).value.names == SplitFrom(input, 0)
  {
  }

  lemma ResolvedLast(stack: seq<string>, names: seq<string>)
    requires Resolved(stack, names).Some? && names != []
    ensures var before := Resolved(stack, names[..|names| - 1]);
      before.Some? && Step(before.value, names[|names| - 1]) == Resolved(stack, names)
  {
  }

  /** A canonical path is its own spelling. */
  lemma CanonicalSpelling(names: seq<string>)
    requires NormalForm(names)
    ensures Respelled(names) == names && forall i :: 0 <= i < |names| ==> Component(names[i])
  {
    forall i | 0 <= i < |names|
      ensures Spelled(names[i]) == names[i]
    {
      UpperFixed(names[i]);
    }
  }

  /** The final component of a path, as spelled. */
  ghost function LastName(input: string): string {
    var names := SplitFrom(input, 0);
    if names == [] then "" else Spelled(names[|names| - 1])
  }
}
