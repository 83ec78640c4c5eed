/**
 * The comment reply panel (components/CommentAutomation.tsx): a local copy
 * of the Stage C comments, updated by id when a reply is generated, edited
 * or posted, with the sign-in state gating generation and posting. The reply
 * generator and the posting service are oracles whose answers arrive as
 * parameters.
 */
module Comments {
  import opened Wrappers
  import opened Types
  import Gemini

  /** The ids of a comment list, in order. */
  function CommentIds(cs: seq<Comment>): (r: seq<string>)
    ensures |r| == |cs| && forall i :: 0 <= i < |cs| ==> r[i] == cs[i].id
  {
    seq(|cs|, i requires 0 <= i < |cs| => cs[i].id)
  }

  /**
   * `prev.map(c => c.id === id ? { ...c, reply } : c)`: every comment with
   * the id gets the reply text; no other comment and no other field changes.
   */
  function SetReply(cs: seq<Comment>, id: string, text: string): (r: seq<Comment>)
    ensures |r| == |cs|
    ensures forall i :: 0 <= i < |cs| ==> r[i] == if cs[i].id == id then cs[i].(reply := Some(text)) else cs[i]
  {
    seq(|cs|, i requires 0 <= i < |cs| => if cs[i].id == id then cs[i].(reply := Some(text)) else cs[i])
  }

  /** `prev.map(c => c.id === id ? { ...c, isReplied: true } : c)`. */
  function MarkReplied(cs: seq<Comment>, id: string): (r: seq<Comment>)
    ensures |r| == |cs|
    ensures forall i :: 0 <= i < |cs| ==> r[i] == if cs[i].id == id then cs[i].(isReplied := true) else cs[i]
  {
    seq(|cs|, i requires 0 <= i < |cs| => if cs[i].id == id then cs[i].(isReplied := true) else cs[i])
  }

  /** The index of the first comment at or after `from` with the id. */
  function FindFrom(cs: seq<Comment>, id: string, from: nat): (r: Option<nat>)
    ensures r.Some? ==> from <= r.value < |cs| && cs[r.value].id == id
    ensures r.Some? ==> forall j :: from <= j < r.value ==> cs[j].id != id
    ensures r.None? ==> forall j :: from <= j < |cs| ==> cs[j].id != id
    decreases |cs| - from
  {
    if from >= |cs| then None
    else if cs[from].id == id then Some(from)
    else FindFrom(cs, id, from + 1)
  }

  /** `localComments.find(c => c.id === id)`: the first comment with the id, if any. */
  function FindComment(cs: seq<Comment>, id: string): (r: Option<Comment>)
    ensures r.None? <==> forall j :: 0 <= j < |cs| ==> cs[j].id != id
    ensures r.Some? ==> exists i :: 0 <= i < |cs| && cs[i] == r.value && r.value.id == id
                                    && forall j :: 0 <= j < i ==> cs[j].id != id
  {
    match FindFrom(cs, id, 0)
    case Some(i) => Some(cs[i])
    case None => None
  }

  /** Every comment that was replied stays replied, position by position. */
  predicate RepliedKept(before: seq<Comment>, after: seq<Comment>) {
    |before| == |after| && forall i :: 0 <= i < |before| && before[i].isReplied ==> after[i].isReplied
  }

  /** Setting a reply keeps the ids, their order and every replied flag. */
  lemma SetReplyKeeps(cs: seq<Comment>, id: string, text: string)
    ensures CommentIds(SetReply(cs, id, text)) == CommentIds(cs)
    ensures forall i :: 0 <= i < |cs| ==> SetReply(cs, id, text)[i].isReplied == cs[i].isReplied
  {
    var r := SetReply(cs, id, text);
    assert forall i :: 0 <= i < |cs| ==> r[i].id == cs[i].id;
  }

  /** Marking keeps the ids and their order, and never clears a replied flag. */
  lemma MarkRepliedKeeps(cs: seq<Comment>, id: string)
    ensures CommentIds(MarkReplied(cs, id)) == CommentIds(cs)
    ensures RepliedKept(cs, MarkReplied(cs, id))
  {
    var r := MarkReplied(cs, id);
    assert forall i :: 0 <= i < |cs| ==> r[i].id == cs[i].id;
  }

  /**
   * After marking, a comment is replied exactly when it has the id or was
   * replied before; its other fields do not change.
   */
  lemma MarkRepliedExactly(cs: seq<Comment>, id: string, i: nat)
    requires i < |cs|
    ensures MarkReplied(cs, id)[i].isReplied <==> cs[i].id == id || cs[i].isReplied
    ensures MarkReplied(cs, id)[i].(isReplied := cs[i].isReplied) == cs[i]
  {
  }

  /** A second reply for the same id replaces the first. */
  lemma SetReplyOverwrites(cs: seq<Comment>, id: string, first: string, second: string)
    ensures SetReply(SetReply(cs, id, first), id, second) == SetReply(cs, id, second)
  {
    var a, b := SetReply(SetReply(cs, id, first), id, second), SetReply(cs, id, second);
    forall i | 0 <= i < |cs| ensures a[i] == b[i] {
    }
  }

  /** Marking the same id twice is marking it once. */
  lemma MarkRepliedIdempotent(cs: seq<Comment>, id: string)
    ensures MarkReplied(MarkReplied(cs, id), id) == MarkReplied(cs, id)
  {
    var a, b := MarkReplied(MarkReplied(cs, id), id), MarkReplied(cs, id);
    forall i | 0 <= i < |cs| ensures a[i] == b[i] {
    }
  }

  /** Replies for two different ids touch different comments, so their order does not matter. */
  lemma SetReplyCommutes(cs: seq<Comment>, id1: string, t1: string, id2: string, t2: string)
    requires id1 != id2
    ensures SetReply(SetReply(cs, id1, t1), id2, t2) == SetReply(SetReply(cs, id2, t2), id1, t1)
  {
    var a, b := SetReply(SetReply(cs, id1, t1), id2, t2), SetReply(SetReply(cs, id2, t2), id1, t1);
    forall i | 0 <= i < |cs| ensures a[i] == b[i] {
    }
  }

  /** The comment `find` sees after a reply is set is the one it saw before, with the reply. */
  lemma FindAfterSetReply(cs: seq<Comment>, id: string, text: string)
    ensures FindComment(SetReply(cs, id, text), id)
         == if FindComment(cs, id).Some? then Some(FindComment(cs, id).value.(reply := Some(text))) else None
  {
    FindFromSetReply(cs, id, text, 0);
  }

  /** Setting a reply changes no id, so the search from any position ends at the same index. */
  lemma {:induction false} FindFromSetReply(cs: seq<Comment>, id: string, text: string, from: nat)
    ensures FindFrom(SetReply(cs, id, text), id, from) == FindFrom(cs, id, from)
    decreases |cs| - from
  {
    if from < |cs| {
      FindFromSetReply(cs, id, text, from + 1);
    }
  }

  /** Marking changes no id, so the search from any position ends at the same index. */
  lemma {:induction false} FindFromMarkReplied(cs: seq<Comment>, id: string, from: nat)
    ensures FindFrom(MarkReplied(cs, id), id, from) == FindFrom(cs, id, from)
    decreases |cs| - from
  {
    if from < |cs| {
      FindFromMarkReplied(cs, id, from + 1);
    }
  }

  /** After a successful post, `find` sees the comment it posted for, now replied. */
  lemma FindAfterMarkReplied(cs: seq<Comment>, id: string)
    ensures FindComment(MarkReplied(cs, id), id)
         == if FindComment(cs, id).Some? then Some(FindComment(cs, id).value.(isReplied := true)) else None
  {
    FindFromMarkReplied(cs, id, 0);
  }

  /**
   * A generated reply is never empty, so once it is set on a comment that
   * exists, the post handler finds that comment with a reply to post.
   */
  lemma GeneratedReplyPostable(cs: seq<Comment>, id: string, lang: Language, reply: Gemini.Reply<string>)
    requires exists i :: 0 <= i < |cs| && cs[i].id == id
    ensures
      var found := FindComment(SetReply(cs, id, Gemini.GenerateCommentReply(lang, reply)), id);
      found.Some? && Truthy(found.value.reply)
  {
    FindAfterSetReply(cs, id, Gemini.GenerateCommentReply(lang, reply));
  }

  /** What the post handler does with the comment `find` returns and the service's answer `posted`. */
  datatype PostOutcome = Posted | NothingToPost | Refused

  /**
   * Posting reaches the service only for a comment that exists and has a
   * non-empty reply; it is marked only when the service answers true.
   */
  function PostOutcomeOf(cs: seq<Comment>, id: string, posted: bool): (r: PostOutcome)
    ensures r == Posted <==> FindComment(cs, id).Some? && Truthy(FindComment(cs, id).value.reply) && posted
    ensures r == Refused <==> FindComment(cs, id).Some? && Truthy(FindComment(cs, id).value.reply) && !posted
  {
    var found := FindComment(cs, id);
    if found.Some? && Truthy(found.value.reply) then
      if posted then Posted else Refused
    else NothingToPost
  }

  /** The alert shown when the service refuses a reply. */
  function PostFailureAlert(lang: Language): (r: string)
    ensures r != ""
  {
    if lang == Ko then "답글 게시에 실패했습니다." else "Failed to post reply."
  }

  /**
   * The panel's state: its copy of the comments, and the ids of the comment
   * whose reply is being generated and of the one being posted.
   */
  class CommentBoard {
    var comments: seq<Comment>
    var loadingId: Option<string>
    var postingId: Option<string>

    /** The panel starts from the comments it is given, with nothing in flight. */
    constructor(initial: seq<Comment>)
      ensures comments == initial && loadingId.None? && postingId.None?
    {
      comments := initial;
      loadingId := None;
      postingId := None;
    }

    /**
     * `handleGenerateReply`: signed out, the sign-in request is raised and
     * nothing changes; signed in, the generated reply (from the generator's
     * answer `reply`) is set on every comment with the comment's id and the
     * loading marker is cleared.
     */
    method GenerateReply(comment: Comment, isAuthenticated: bool, lang: Language, reply: Gemini.Reply<string>)
      returns (loginRequested: bool)
      modifies this
      ensures loginRequested == !isAuthenticated
      ensures !isAuthenticated ==> comments == old(comments) && loadingId == old(loadingId)
      ensures isAuthenticated ==>
        comments == SetReply(old(comments), comment.id, Gemini.GenerateCommentReply(lang, reply)) && loadingId.None?
      ensures postingId == old(postingId) && RepliedKept(old(comments), comments)
      ensures CommentIds(comments) == CommentIds(old(comments))
    {
      if !isAuthenticated {
        return true;
      }
      loginRequested := false;
      loadingId := Some(comment.id);
      var text := Gemini.GenerateCommentReply(lang, reply);
      SetReplyKeeps(comments, comment.id, text);
      comments := SetReply(comments, comment.id, text);
      loadingId := None;
    }

    /** The inline editor: the typed `value` becomes the reply of every comment with the id. */
    method EditReply(id: string, value: string)
      modifies this
      ensures comments == SetReply(old(comments), id, value)
      ensures loadingId == old(loadingId) && postingId == old(postingId) && RepliedKept(old(comments), comments)
      ensures CommentIds(comments) == CommentIds(old(comments))
    {
      SetReplyKeeps(comments, id, value);
      comments := SetReply(comments, id, value);
    }

    /**
     * `handlePostReply`: signed out, nothing happens. Signed in, the first
     * comment with the id is looked up; when it has a non-empty reply, the
     * service's answer `posted` decides between marking every comment with
     * the id as replied and the failure alert. The posting marker is
     * cleared at the end.
     */
    method PostReply(id: string, isAuthenticated: bool, lang: Language, posted: bool) returns (alert: Option<string>)
      modifies this
      ensures !isAuthenticated ==> comments == old(comments) && postingId == old(postingId) && alert.None?
      ensures isAuthenticated ==>
        && comments == (if PostOutcomeOf(old(comments), id, posted) == Posted then MarkReplied(old(comments), id)
                        else old(comments))
        && alert == (if PostOutcomeOf(old(comments), id, posted) == Refused then Some(PostFailureAlert(lang)) else None)
        && postingId.None?
      ensures loadingId == old(loadingId) && RepliedKept(old(comments), comments)
      ensures CommentIds(comments) == CommentIds(old(comments))
    {
      alert := None;
      if !isAuthenticated {
        return;
      }
      postingId := Some(id);
      var found := FindComment(comments, id);
      if found.Some? && Truthy(found.value.reply) {
        if posted {
          MarkRepliedKeeps(comments, id);
          comments := MarkReplied(comments, id);
        } else {
          alert := Some(PostFailureAlert(lang));
        }
      }
      postingId := None;
    }
  }
}
