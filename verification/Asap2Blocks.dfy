/** Reading the block structure of an ASAP2 file from its tokens.

    A token is a comment, a block boundary `/begin` or `/end` in any letter case, a quoted
    string or a word. The reader keeps a stack of open blocks. It is proved against the grammar
    of nested blocks: it accepts exactly the token sequences of that grammar and builds exactly
    the block the grammar describes. */
module Asap2Blocks {

  datatype Block = Block(kind: string, tokens: seq<string>, children: seq<Block>)

  datatype Fault = TruncatedBoundary | MismatchedBoundary | UnclosedBlock

  datatype Reading = Read(document: Block) | Refused(fault: Fault)

  const EMPTY_DOCUMENT := Block("DOCUMENT", [], [])

  // ----- tokens

  function LowerChar(c: char): char { if 'A' <= c <= 'Z' then ((c as int) + 32) as char else c }

  function UpperChar(c: char): char { if 'a' <= c <= 'z' then ((c as int) - 32) as char else c }

  function Lower(s: string): string { seq(|s|, i requires 0 <= i < |s| => LowerChar(s[i])) }

  function Upper(s: string): string { seq(|s|, i requires 0 <= i < |s| => UpperChar(s[i])) }

  predicate IsComment(token: string) { "/*" <= token || "//" <= token }

  predicate IsBegin(token: string) { Lower(token) == "/begin" }

  predicate IsEnd(token: string) { Lower(token) == "/end" }

  /** A backslash before a quote or a backslash is dropped. */
  function Unescaped(s: string): string {
    if s == [] then []
    else if s[0] == '\\' && |s| > 1 && (s[1] == '"' || s[1] == '\\') then [s[1]] + Unescaped(s[2..])
    else [s[0]] + Unescaped(s[1..])
  }

  /** What a token that is no boundary stands for. */
  function Meaning(token: string): string {
    if token == [] || token[0] != '"' then token
    else Unescaped(if |token| >= 2 then token[1..|token|-1] else [])
  }

  function Escaped(s: string): string {
    if s == [] then []
    else (if s[0] == '"' || s[0] == '\\' then ['\\', s[0]] else [s[0]]) + Escaped(s[1..])
  }

  lemma {:induction false} UnescapedEscaped(s: string)
    ensures Unescaped(Escaped(s)) == s
  {
    if s != [] {
      UnescapedEscaped(s[1..]);
      var rest := Escaped(s[1..]);
      if s[0] == '"' || s[0] == '\\' {
        assert Escaped(s)[2..] == rest;
      } else {
        assert Escaped(s)[1..] == rest;
      }
      assert [s[0]] + s[1..] == s;
    }
  }

  /** Every text, quotes and backslashes included, survives being written as a quoted string. */
  lemma QuotedRoundTrip(s: string)
    ensures Meaning(['"'] + Escaped(s) + ['"']) == s
  {
    var token := ['"'] + Escaped(s) + ['"'];
    assert token[1..|token|-1] == Escaped(s);
    UnescapedEscaped(s);
  }

  // ----- the reader

  function PastComments(tokens: seq<string>): (rest: seq<string>)
    ensures |rest| <= |tokens|
    ensures rest != [] ==> !IsComment(rest[0])
  {
    if tokens != [] && IsComment(tokens[0]) then PastComments(tokens[1..]) else tokens
  }

  function Top(stack: seq<Block>): Block
    requires stack != []
  {
    stack[|stack|-1]
  }

  /** The stack with its top block replaced. */
  function WithTop(stack: seq<Block>, top: Block): (r: seq<Block>)
    requires stack != []
    ensures |r| == |stack| && Top(r) == top
  {
    stack[..|stack|-1] + [top]
  }

  function Noted(block: Block, token: string): (r: Block)
    ensures r.kind == block.kind
  {
    block.(tokens := block.tokens + [Meaning(token)])
  }

  function Opened(kind: string): Block { Block(Upper(kind), [], []) }

  /** The stack after its top block is finished and becomes the last child of the one below. */
  function Closed(stack: seq<Block>): (r: seq<Block>)
    requires |stack| >= 2
    ensures |r| == |stack| - 1
  {
    var below := stack[..|stack|-1];
    WithTop(below, Top(below).(children := Top(below).children + [Top(stack)]))
  }

  /** What reading the remaining tokens with these blocks open comes to. */
  function Outcome(tokens: seq<string>, stack: seq<Block>): Reading
    requires stack != []
    decreases |tokens|
  {
    if tokens == [] then if |stack| == 1 then Read(stack[0]) else Refused(UnclosedBlock)
    else if IsComment(tokens[0]) then Outcome(tokens[1..], stack)
    else if IsBegin(tokens[0]) || IsEnd(tokens[0]) then
      var rest := PastComments(tokens[1..]);
      if rest == [] then Refused(TruncatedBoundary)
      else if IsBegin(tokens[0]) then Outcome(rest[1..], stack + [Opened(rest[0])])
      else if |stack| < 2 || Top(stack).kind != Upper(rest[0]) then Refused(MismatchedBoundary)
      else Outcome(rest[1..], Closed(stack))
    else Outcome(tokens[1..], WithTop(stack, Noted(Top(stack), tokens[0])))
  }

  lemma CommentStep(tokens: seq<string>, stack: seq<Block>)
    requires stack != [] && tokens != [] && IsComment(tokens[0])
    ensures Outcome(tokens, stack) == Outcome(tokens[1..], stack)
  {
  }

  lemma WordStep(tokens: seq<string>, stack: seq<Block>)
    requires stack != [] && tokens != []
    requires !IsComment(tokens[0]) && !IsBegin(tokens[0]) && !IsEnd(tokens[0])
    ensures Outcome(tokens, stack) == Outcome(tokens[1..], WithTop(stack, Noted(Top(stack), tokens[0])))
  {
  }

  /** What a boundary token does; `rest` is what follows it past comments. */
  lemma BoundaryStep(tokens: seq<string>, stack: seq<Block>, rest: seq<string>)
    requires stack != [] && tokens != [] && !IsComment(tokens[0]) && (IsBegin(tokens[0]) || IsEnd(tokens[0]))
    requires rest == PastComments(tokens[1..])
    ensures rest == [] ==> Outcome(tokens, stack) == Refused(TruncatedBoundary)
    ensures rest != [] && IsBegin(tokens[0]) ==> Outcome(tokens, stack) == Outcome(rest[1..], stack + [Opened(rest[0])])
    ensures rest != [] && !IsBegin(tokens[0]) ==>
      Outcome(tokens, stack) == if |stack| < 2 || Top(stack).kind != Upper(rest[0]) then Refused(MismatchedBoundary)
                                else Outcome(rest[1..], Closed(stack))
  {
  }

  lemma NothingAhead(stack: seq<Block>)
    requires stack != []
    ensures Outcome([], stack) == if |stack| == 1 then Read(stack[0]) else Refused(UnclosedBlock)
  {
  }

  method SkipComments(tokens: seq<string>, from: nat) returns (i: nat)
    requires from <= |tokens|
    ensures i <= |tokens| && tokens[i..] == PastComments(tokens[from..])
  {
    hide IsComment;
    i := from;
    while i < |tokens| && IsComment(tokens[i])
      invariant i <= |tokens| && PastComments(tokens[i..]) == PastComments(tokens[from..])
    {
      assert tokens[i..][1..] == tokens[i + 1..];
      i := i + 1;
    }
  }

  /** The loop over the tokens. */
  method ReadBlocks(tokens: seq<string>) returns (r: Reading)
    ensures r == Outcome(tokens, [EMPTY_DOCUMENT])
  {
    hide *;
    var stack := [EMPTY_DOCUMENT];
    var i := 0;
    assert tokens[0..] == tokens;
    while i < |tokens|
      invariant 0 <= i <= |tokens| && stack != []
      invariant Outcome(tokens[i..], stack) == Outcome(tokens, [EMPTY_DOCUMENT])
    {
      var token := tokens[i];
      ghost var ahead := tokens[i..];
      assert ahead[0] == token && ahead[1..] == tokens[i + 1..];
      i := i + 1;
      if IsComment(token) {
        CommentStep(ahead, stack);
      } else if IsBegin(token) || IsEnd(token) {
        i := SkipComments(tokens, i);
        ghost var rest := tokens[i..];
        BoundaryStep(ahead, stack, rest);
        if i == |tokens| { return Refused(TruncatedBoundary); }
        assert rest[0] == tokens[i] && rest[1..] == tokens[i + 1..];
        var kind := tokens[i];
        i := i + 1;
        if IsBegin(token) {
          stack := stack + [Opened(kind)];
        } else if |stack| < 2 || Top(stack).kind != Upper(kind) {
          return Refused(MismatchedBoundary);
        } else {
          stack := Closed(stack);
        }
      } else {
        WordStep(ahead, stack);
        stack := WithTop(stack, Noted(Top(stack), token));
      }
    }
    assert tokens[i..] == [];
    NothingAhead(stack);
    if |stack| != 1 { return Refused(UnclosedBlock); }
    return Read(stack[0]);
  }

  // ----- the grammar

  /** The content of a block: words and nested blocks, with the tokens that spell them. */
  datatype Content =
    | Nothing
    | Word(token: string, rest: Content)
    | Nested(begin: string, kind: string, inside: Content, end: string, closing: string, rest: Content)

  predicate Proper(content: Content) {
    match content
    case Nothing => true
    case Word(token, rest) => !IsComment(token) && !IsBegin(token) && !IsEnd(token) && Proper(rest)
    case Nested(begin, kind, inside, end, closing, rest) =>
      && IsBegin(begin) && !IsComment(kind) && Proper(inside)
      && IsEnd(end) && !IsComment(closing) && Upper(closing) == Upper(kind) && Proper(rest)
  }

  function Spelled(content: Content): seq<string> {
    match content
    case Nothing => []
    case Word(token, rest) => [token] + Spelled(rest)
    case Nested(begin, kind, inside, end, closing, rest) =>
      [begin, kind] + Spelled(inside) + [end, closing] + Spelled(rest)
  }

  /** The block with this content added to it. */
  function Filled(block: Block, content: Content): (r: Block)
    ensures r.kind == block.kind
    decreases content
  {
    match content
    case Nothing => block
    case Word(token, rest) => Filled(Noted(block, token), rest)
    case Nested(_, kind, inside, _, _, rest) =>
      Filled(block.(children := block.children + [Filled(Opened(kind), inside)]), rest)
  }

  function WithoutComments(tokens: seq<string>): seq<string> {
    if tokens == [] then []
    else if IsComment(tokens[0]) then WithoutComments(tokens[1..])
    else [tokens[0]] + WithoutComments(tokens[1..])
  }

  lemma BoundaryIsNoComment(token: string)
    requires IsBegin(token) || IsEnd(token)
    ensures !IsComment(token)
  {
    assert |Lower(token)| == |token|;
    assert Lower(token)[1] == LowerChar(token[1]);
  }

  lemma {:induction false} SkippedAndStripped(tokens: seq<string>)
    ensures
      var rest := PastComments(tokens);
      WithoutComments(tokens) == if rest == [] then [] else [rest[0]] + WithoutComments(rest[1..])
    decreases |tokens|
  {
    if tokens != [] && IsComment(tokens[0]) { SkippedAndStripped(tokens[1..]); }
  }

  lemma {:induction false} StrippedIsPlain(tokens: seq<string>)
    ensures Plain(WithoutComments(tokens))
    decreases |tokens|
  {
    if tokens != [] { StrippedIsPlain(tokens[1..]); }
  }

  /** Comments, even between a boundary and its kind, change nothing. */
  lemma {:induction false} CommentsIgnored(tokens: seq<string>, stack: seq<Block>)
    requires stack != []
    ensures Outcome(tokens, stack) == Outcome(WithoutComments(tokens), stack)
    decreases |tokens|
  {
    hide IsComment, IsBegin, IsEnd, Outcome, WithTop, Closed, Noted, Opened;
    if tokens == [] {
    } else if IsComment(tokens[0]) {
      CommentStep(tokens, stack);
      CommentsIgnored(tokens[1..], stack);
    } else {
      var stripped := WithoutComments(tokens);
      assert stripped[0] == tokens[0] && stripped[1..] == WithoutComments(tokens[1..]);
      if IsBegin(tokens[0]) || IsEnd(tokens[0]) {
        var rest := PastComments(tokens[1..]);
        BoundaryStep(tokens, stack, rest);
        SkippedAndStripped(tokens[1..]);
        StrippedIsPlain(tokens[1..]);
        assert PastComments(stripped[1..]) == stripped[1..];
        BoundaryStep(stripped, stack, stripped[1..]);
        if rest != [] {
          assert stripped[1..][1..] == WithoutComments(rest[1..]);
          if IsBegin(tokens[0]) {
            CommentsIgnored(rest[1..], stack + [Opened(rest[0])]);
          } else if |stack| >= 2 {
            CommentsIgnored(rest[1..], Closed(stack));
          }
        }
      } else {
        WordStep(tokens, stack);
        WordStep(stripped, stack);
        CommentsIgnored(tokens[1..], WithTop(stack, Noted(Top(stack), tokens[0])));
      }
    }
  }

  lemma BeginIsNotEnd(token: string)
    ensures !(IsBegin(token) && IsEnd(token))
  {
    assert |Lower(token)| == |token|;
  }

  /** Closing a nested block that was filled with `inside` makes it the last child. */
  lemma ClosesFilled(stack: seq<Block>, kind: string, inside: Content)
    requires stack != []
    ensures
      var full := WithTop(stack + [Opened(kind)], Filled(Top(stack + [Opened(kind)]), inside));
      var below := Top(stack);
      && |full| == |stack| + 1 && Top(full).kind == Upper(kind)
      && Closed(full) == WithTop(stack, below.(children := below.children + [Filled(Opened(kind), inside)]))
  {
    hide Upper, Filled;
    var full := WithTop(stack + [Opened(kind)], Filled(Top(stack + [Opened(kind)]), inside));
    assert full[..|full|-1] == stack;
  }

  lemma WithTopTwice(stack: seq<Block>, a: Block, b: Block)
    requires stack != []
    ensures WithTop(WithTop(stack, a), b) == WithTop(stack, b) && WithTop(stack, Top(stack)) == stack
  {
  }

  /** Reading the tokens of some content fills the open block with it and goes on behind. */
  lemma {:induction false} ReadsContent(content: Content, stack: seq<Block>, behind: seq<string>)
    requires Proper(content) && stack != []
    ensures Outcome(Spelled(content) + behind, stack) == Outcome(behind, WithTop(stack, Filled(Top(stack), content)))
    decreases content
  {
    hide Upper, IsComment, IsBegin, IsEnd, Outcome, WithTop, Closed, Noted, Opened;
    match content
    case Nothing =>
      assert Spelled(content) + behind == behind;
      WithTopTwice(stack, Top(stack), Top(stack));
    case Word(token, rest) =>
      var tokens := Spelled(content) + behind;
      assert tokens[0] == token && tokens[1..] == Spelled(rest) + behind;
      WordStep(tokens, stack);
      var noted := Noted(Top(stack), token);
      ReadsContent(rest, WithTop(stack, noted), behind);
      WithTopTwice(stack, noted, Filled(noted, rest));
    case Nested(begin, kind, inside, end, closing, rest) =>
      var deeper := stack + [Opened(kind)];
      var after := [end, closing] + (Spelled(rest) + behind);
      BeginReads(begin, kind, Spelled(inside) + after, stack);
      assert Spelled(content) + behind == [begin, kind] + (Spelled(inside) + after);
      ReadsContent(inside, deeper, after);
      ClosesFilled(stack, kind, inside);
      EndReads(end, closing, Spelled(rest) + behind, WithTop(deeper, Filled(Top(deeper), inside)));
      var grown := Top(stack).(children := Top(stack).children + [Filled(Opened(kind), inside)]);
      ReadsContent(rest, WithTop(stack, grown), behind);
      WithTopTwice(stack, grown, Filled(grown, rest));
  }

  lemma BeginReads(begin: string, kind: string, rest: seq<string>, stack: seq<Block>)
    requires stack != [] && IsBegin(begin) && !IsComment(kind)
    ensures Outcome([begin, kind] + rest, stack) == Outcome(rest, stack + [Opened(kind)])
  {
    hide Outcome;
    BoundaryIsNoComment(begin);
    var tokens := [begin, kind] + rest;
    assert tokens[1..] == [kind] + rest && PastComments(tokens[1..]) == tokens[1..] && tokens[1..][1..] == rest;
    BoundaryStep(tokens, stack, tokens[1..]);
  }

  lemma EndReads(end: string, closing: string, rest: seq<string>, stack: seq<Block>)
    requires stack != [] && IsEnd(end) && !IsComment(closing)
    ensures Outcome([end, closing] + rest, stack)
      == if |stack| < 2 || Top(stack).kind != Upper(closing) then Refused(MismatchedBoundary) else Outcome(rest, Closed(stack))
  {
    hide Outcome, Closed, Upper;
    BoundaryIsNoComment(end);
    BeginIsNotEnd(end);
    var tokens := [end, closing] + rest;
    assert tokens[1..] == [closing] + rest && PastComments(tokens[1..]) == tokens[1..] && tokens[1..][1..] == rest;
    BoundaryStep(tokens, stack, tokens[1..]);
  }

  lemma LoneBoundary(token: string, stack: seq<Block>)
    requires stack != [] && (IsBegin(token) || IsEnd(token))
    ensures !Outcome([token], stack).Read?
  {
    hide IsBegin, IsEnd;
    BoundaryIsNoComment(token);
    assert [token][1..] == [];
  }

  lemma KindOpened(stack: seq<Block>, kind: string)
    ensures Top(stack + [Opened(kind)]).kind == Upper(kind)
  {
  }

  ghost predicate Plain(tokens: seq<string>) { forall t :: t in tokens ==> !IsComment(t) }

  lemma Joined<T>(tokens: seq<T>, first: seq<T>, after: seq<T>, second: seq<T>, behind: seq<T>)
    requires |tokens| >= 2 && |after| >= 2
    requires tokens[2..] == first + after && after[2..] == second + behind
    ensures tokens == [tokens[0], tokens[1]] + first + [after[0], after[1]] + second + behind
  {
    assert tokens == [tokens[0], tokens[1]] + tokens[2..];
    assert after == [after[0], after[1]] + after[2..];
  }

  /** From an accepted reading, the content of the innermost open block can be read off: it is
      followed by the end of the tokens or, in a nested block, by that block's end. */
  lemma {:induction false} ContentOf(tokens: seq<string>, stack: seq<Block>) returns (content: Content, behind: seq<string>)
    requires stack != [] && Outcome(tokens, stack).Read? && Plain(tokens)
    ensures Proper(content) && tokens == Spelled(content) + behind
    ensures |stack| == 1 ==> behind == []
    ensures |stack| > 1 ==> |behind| >= 2 && IsEnd(behind[0]) && Upper(behind[1]) == Top(stack).kind
    decreases |tokens|
  {
    hide Upper, IsComment, IsBegin, IsEnd, Outcome, WithTop, Closed, Noted, Opened, Filled;
    if tokens == [] {
      NothingAhead(stack);
      content, behind := Nothing, [];
    } else if IsBegin(tokens[0]) || IsEnd(tokens[0]) {
      if |tokens| == 1 {
        assert tokens == [tokens[0]];
        LoneBoundary(tokens[0], stack);
        assert false;
      }
      var kind := tokens[1];
      assert tokens == [tokens[0], kind] + tokens[2..];
      if IsBegin(tokens[0]) {
        var deeper := stack + [Opened(kind)];
        BeginReads(tokens[0], kind, tokens[2..], stack);
        KindOpened(stack, kind);
        var inside, after := ContentOf(tokens[2..], deeper);
        ReadsContent(inside, deeper, after);
        ClosesFilled(stack, kind, inside);
        PlainParts(tokens, Spelled(inside), after);
        EndReads(after[0], after[1], after[2..], WithTop(deeper, Filled(Top(deeper), inside)));
        var rest;
        rest, behind := ContentOf(after[2..], Closed(WithTop(deeper, Filled(Top(deeper), inside))));
        content := Nested(tokens[0], kind, inside, after[0], after[1], rest);
        Joined(tokens, Spelled(inside), after, Spelled(rest), behind);
      } else {
        EndReads(tokens[0], kind, tokens[2..], stack);
        content, behind := Nothing, tokens;
      }
    } else {
      WordStep(tokens, stack);
      var rest;
      rest, behind := ContentOf(tokens[1..], WithTop(stack, Noted(Top(stack), tokens[0])));
      content := Word(tokens[0], rest);
      assert tokens == [tokens[0]] + tokens[1..];
    }
  }

  lemma PlainParts(tokens: seq<string>, first: seq<string>, after: seq<string>)
    requires Plain(tokens) && |tokens| >= 2 && tokens[2..] == first + after && |after| >= 2
    ensures Plain(after[2..]) && !IsComment(after[1]) && !IsComment(tokens[1])
    ensures after == [after[0], after[1]] + after[2..]
  {
    assert after[1] in tokens[2..];
    assert forall t :: t in after[2..] ==> t in tokens[2..];
  }

  /** The reader accepts exactly the tokens of properly nested content, comments anywhere. */
  lemma AcceptedIffNested(tokens: seq<string>)
    ensures Outcome(tokens, [EMPTY_DOCUMENT]).Read?
      <==> exists content :: Proper(content) && Spelled(content) == WithoutComments(tokens)
  {
    var plain := WithoutComments(tokens);
    CommentsIgnored(tokens, [EMPTY_DOCUMENT]);
    StrippedIsPlain(tokens);
    if Outcome(tokens, [EMPTY_DOCUMENT]).Read? {
      var content, behind := ContentOf(plain, [EMPTY_DOCUMENT]);
      assert Spelled(content) == plain;
    }
    forall content | Proper(content) && Spelled(content) == plain
      ensures Outcome(tokens, [EMPTY_DOCUMENT]).Read?
    {
      ReadsWhole(tokens, content);
    }
  }

  /** And it builds the block that content describes. */
  lemma ReadsWhole(tokens: seq<string>, content: Content)
    requires Proper(content) && Spelled(content) == WithoutComments(tokens)
    ensures Outcome(tokens, [EMPTY_DOCUMENT]) == Read(Filled(EMPTY_DOCUMENT, content))
  {
    CommentsIgnored(tokens, [EMPTY_DOCUMENT]);
    ReadsContent(content, [EMPTY_DOCUMENT], []);
    assert Spelled(content) + [] == Spelled(content);
  }

  // ----- writing blocks

  /** A text as a quoted token. */
  function Quoted(text: string): string { ['"'] + Escaped(text) + ['"'] }

  /** Kinds that can be written: in upper case, and not like a comment. */
  ghost predicate Writable(children: seq<Block>)
    decreases children
  {
    children == []
    || (Upper(children[0].kind) == children[0].kind && !IsComment(children[0].kind)
      && Writable(children[0].children) && Writable(children[1..]))
  }

  function Words(tokens: seq<string>, rest: Content): Content {
    if tokens == [] then rest else Word(Quoted(tokens[0]), Words(tokens[1..], rest))
  }

  /** The content of blocks, tokens first. */
  function ContentFor(children: seq<Block>): Content
    decreases children
  {
    if children == [] then Nothing
    else
      var b := children[0];
      Nested("/begin", b.kind, Words(b.tokens, ContentFor(b.children)), "/end", b.kind, ContentFor(children[1..]))
  }

  function QuotedAll(tokens: seq<string>): seq<string> {
    if tokens == [] then [] else [Quoted(tokens[0])] + QuotedAll(tokens[1..])
  }

  /** Blocks written out, the texts of each before the blocks inside it. */
  function Written(children: seq<Block>): seq<string>
    decreases children
  {
    if children == [] then []
    else
      var b := children[0];
      ["/begin", b.kind] + (QuotedAll(b.tokens) + Written(b.children)) + ["/end", b.kind] + Written(children[1..])
  }

  lemma QuotedIsWord(text: string)
    ensures !IsComment(Quoted(text)) && !IsBegin(Quoted(text)) && !IsEnd(Quoted(text))
  {
    assert Lower(Quoted(text))[0] == '"';
    assert "/begin"[0] == "/end"[0] == "/*"[0] == "//"[0] == '/';
  }

  lemma Boundaries()
    ensures IsBegin("/begin") && IsEnd("/end")
  {
    assert Lower("/begin") == "/begin" && Lower("/end") == "/end";
  }

  lemma {:induction false} WordsSpelled(tokens: seq<string>, rest: Content)
    ensures Spelled(Words(tokens, rest)) == QuotedAll(tokens) + Spelled(rest)
    ensures Proper(rest) ==> Proper(Words(tokens, rest))
  {
    if tokens != [] {
      hide Quoted, IsComment, IsBegin, IsEnd;
      QuotedIsWord(tokens[0]);
      WordsSpelled(tokens[1..], rest);
    }
  }

  lemma {:induction false} WrittenIsSpelled(children: seq<Block>)
    requires Writable(children)
    ensures Proper(ContentFor(children)) && Spelled(ContentFor(children)) == Written(children)
    decreases children
  {
    if children != [] {
      hide Upper, IsComment, IsBegin, IsEnd, Words, QuotedAll;
      var b := children[0];
      WrittenIsSpelled(b.children);
      WrittenIsSpelled(children[1..]);
      WordsSpelled(b.tokens, ContentFor(b.children));
      Boundaries();
    }
  }

  lemma {:induction false} WordsFilled(tokens: seq<string>, rest: Content, block: Block)
    ensures Filled(block, Words(tokens, rest)) == Filled(block.(tokens := block.tokens + tokens), rest)
  {
    if tokens == [] {
      assert block.tokens + tokens == block.tokens;
    } else {
      hide Quoted, Meaning;
      QuotedMeans(tokens[0]);
      WordsFilled(tokens[1..], rest, block.(tokens := block.tokens + [tokens[0]]));
      assert block.tokens + [tokens[0]] + tokens[1..] == block.tokens + tokens;
    }
  }

  lemma QuotedMeans(text: string)
    ensures Meaning(Quoted(text)) == text
  {
    QuotedRoundTrip(text);
  }

  lemma {:induction false} BlocksFilled(children: seq<Block>, block: Block)
    requires Writable(children)
    ensures Filled(block, ContentFor(children)) == block.(children := block.children + children)
    decreases children
  {
    if children == [] {
      assert block.children + children == block.children;
    } else {
      hide Upper, IsComment, Words, Filled;
      var b := children[0];
      WordsFilled(b.tokens, ContentFor(b.children), Opened(b.kind));
      BlocksFilled(b.children, Opened(b.kind).(tokens := [] + b.tokens));
      assert [] + b.tokens == b.tokens && [] + b.children == b.children;
      FilledNested(children, block);
      BlocksFilled(children[1..], block.(children := block.children + [b]));
      assert block.children + [b] + children[1..] == block.children + children;
    }
  }

  lemma FilledNested(children: seq<Block>, block: Block)
    requires children != []
    ensures
      var b := children[0];
      var child := Filled(Opened(b.kind), Words(b.tokens, ContentFor(b.children)));
      Filled(block, ContentFor(children)) == Filled(block.(children := block.children + [child]), ContentFor(children[1..]))
  {
    hide Opened, Words;
  }

  lemma {:induction false} WrittenIsPlain(children: seq<Block>)
    requires Writable(children)
    ensures Plain(Written(children))
    decreases children
  {
    if children != [] {
      hide IsComment, Upper, Quoted, QuotedAll;
      var b := children[0];
      WrittenIsPlain(b.children);
      WrittenIsPlain(children[1..]);
      QuotedIsPlain(b.tokens);
      NoCommentBoundary();
    }
  }

  lemma NoCommentBoundary()
    ensures !IsComment("/begin") && !IsComment("/end")
  {
    Boundaries();
    BoundaryIsNoComment("/begin");
    BoundaryIsNoComment("/end");
  }

  lemma {:induction false} QuotedIsPlain(tokens: seq<string>)
    ensures Plain(QuotedAll(tokens))
  {
    if tokens != [] {
      hide Quoted, IsComment;
      QuotedIsWord(tokens[0]);
      QuotedIsPlain(tokens[1..]);
    }
  }

  lemma {:induction false} PlainStays(tokens: seq<string>)
    requires Plain(tokens)
    ensures WithoutComments(tokens) == tokens
  {
    if tokens != [] {
      assert tokens[0] in tokens;
      PlainStays(tokens[1..]);
    }
  }

  /** The reader gives back every tree of blocks that is written out, texts and nested blocks in
      their order, whatever the texts. */
  lemma WrittenIsRead(children: seq<Block>)
    requires Writable(children)
    ensures Outcome(Written(children), [EMPTY_DOCUMENT]) == Read(Block("DOCUMENT", [], children))
  {
    hide Outcome, Written, Filled;
    WrittenIsSpelled(children);
    WrittenIsPlain(children);
    PlainStays(Written(children));
    ReadsWhole(Written(children), ContentFor(children));
    BlocksFilled(children, EMPTY_DOCUMENT);
    assert [] + children == children;
  }

  /** What is wrong behind well-formed blocks is told by name: a boundary without a kind, an end
      without a block, a block without an end. */
  lemma FaultsAreTold(children: seq<Block>, kind: string)
    requires Writable(children) && !IsComment(kind)
    ensures Outcome(Written(children) + ["/begin"], [EMPTY_DOCUMENT]) == Refused(TruncatedBoundary)
    ensures Outcome(Written(children) + ["/end"], [EMPTY_DOCUMENT]) == Refused(TruncatedBoundary)
    ensures Outcome(Written(children) + ["/end", kind], [EMPTY_DOCUMENT]) == Refused(MismatchedBoundary)
    ensures Outcome(Written(children) + ["/begin", kind], [EMPTY_DOCUMENT]) == Refused(UnclosedBlock)
  {
    hide Outcome, Written, Filled, Upper, IsComment, Opened, WithTop, IsBegin, IsEnd;
    WrittenIsSpelled(children);
    Boundaries();
    var content, stack := ContentFor(children), [EMPTY_DOCUMENT];
    var full := WithTop(stack, Filled(Top(stack), content));
    ReadsContent(content, stack, ["/begin"]);
    ReadsContent(content, stack, ["/end"]);
    ReadsContent(content, stack, ["/end", kind]);
    ReadsContent(content, stack, ["/begin", kind]);
    AloneIsTruncated("/begin", full);
    AloneIsTruncated("/end", full);
    assert ["/end", kind] + [] == ["/end", kind] && ["/begin", kind] + [] == ["/begin", kind];
    EndReads("/end", kind, [], full);
    BeginReads("/begin", kind, [], full);
    NothingAhead(full + [Opened(kind)]);
  }

  lemma AloneIsTruncated(token: string, stack: seq<Block>)
    requires stack != [] && (IsBegin(token) || IsEnd(token))
    ensures Outcome([token], stack) == Refused(TruncatedBoundary)
  {
    hide IsBegin, IsEnd, Outcome;
    BoundaryIsNoComment(token);
    assert [token][1..] == [];
    BoundaryStep([token], stack, []);
  }

  /** Comments of both forms, whatever they say, are no tokens. */
  lemma CommentsOfBothForms(text: string, tokens: seq<string>)
    ensures WithoutComments(["/*" + text] + tokens) == WithoutComments(["//" + text] + tokens) == WithoutComments(tokens)
  {
    assert (["/*" + text] + tokens)[1..] == tokens && (["//" + text] + tokens)[1..] == tokens;
  }

  /** Boundaries in any letter case. */
  lemma CaseIgnored(token: string)
    ensures IsBegin(token) <==> Upper(token) == "/BEGIN"
    ensures IsEnd(token) <==> Upper(token) == "/END"
  {
    assert |Lower(token)| == |token| == |Upper(token)|;
    SameLetters(token, "/begin", "/BEGIN");
    SameLetters(token, "/end", "/END");
  }

  lemma SameLetters(token: string, low: string, up: string)
    requires |low| == |up| && forall i :: 0 <= i < |low| ==> SameLetter(low[i], up[i])
    ensures Lower(token) == low <==> Upper(token) == up
  {
    if Lower(token) == low {
      forall i | 0 <= i < |token| ensures Upper(token)[i] == up[i] { assert Lower(token)[i] == low[i] && SameLetter(low[i], up[i]); }
    }
    if Upper(token) == up {
      forall i | 0 <= i < |token| ensures Lower(token)[i] == low[i] { assert Upper(token)[i] == up[i] && SameLetter(low[i], up[i]); }
    }
  }

  /** A letter in lower and in upper case, or a character that is no letter. */
  predicate SameLetter(low: char, up: char) {
    if 'a' <= low <= 'z' then up as int == low as int - 32 else low == up && !('A' <= low <= 'Z')
  }
}
