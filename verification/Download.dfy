/**
 * Resumable file download: a temporary file, a checkpoint that names the content it is a prefix
 * of, and a destination that is replaced by one rename.  The client may crash between any two
 * steps, losing any unsynchronised tail of the temporary file, and may be started again for
 * another remote path.  Removing a sidecar file is taken to succeed.
 */
module Download {
  import opened Base

  const STREAM_FILE_MAX_BYTES: nat := 1024 * 1024 * 1024
  const FILE_STREAM_CHUNK_BYTES: nat := 64 * 1024

  predicate IsHexDigit(c: char) { '0' <= c <= '9' || 'a' <= c <= 'f' || 'A' <= c <= 'F' }

  predicate IsDigest(s: string) {
    |s| == 64 && forall i :: 0 <= i < |s| ==> IsHexDigit(s[i])
  }

  datatype Checkpoint = Checkpoint(remote: string, totalSize: nat, sha256: string)

  /** The checkpoint file: missing, unreadable as a checkpoint, or readable. */
  datatype Meta = NoMeta | BadMeta | Meta(checkpoint: Checkpoint)

  /** The header of one stream; `length` bytes starting at `offset` are promised. */
  datatype Info = Info(totalSize: nat, offset: nat, length: nat, sha256: string)

  datatype Outcome = Done(sha256: string) | SizeMismatch | DigestMismatch | Failed

  /** What to do once the sidecars have been removed. */
  datatype Then = Request | GiveUp

  datatype Pc =
    | Idle
    | Starting
    | RemovingTmp(then_: Then, alsoMeta: bool)
    | RemovingMeta(then_: Then)
    | Requesting(offset: nat, expected: Option<(nat, string)>)
    | Receiving(info: Info, received: nat)
    | Verifying(info: Info)
    | Renaming(info: Info)
    | Finishing(info: Info)

  datatype State = State(
    pc: Pc, remote: string,
    tmp: Option<seq<byte>>, meta: Meta, dest: Option<seq<byte>>,
    declared: set<Checkpoint>, outcomes: seq<Outcome>)

  datatype Action =
    | Launch(remote: string)
    | Step
    | Begin(path: string, info: Info)
    | Chunk(offset: nat, data: seq<byte>)
    | End(bytes: nat, sha256: string)
    | Interrupted(retry: bool)
    | Refused
    | Crash(kept: nat)

  /** Reading the checkpoint at the top of the retry loop. */
  function Decide(s: State): Pc {
    match s.meta
    case BadMeta => RemovingTmp(GiveUp, true)
    case NoMeta => RemovingTmp(Request, false)
    case Meta(c) =>
      if c.remote != s.remote || c.totalSize > STREAM_FILE_MAX_BYTES || !IsDigest(c.sha256)
      then RemovingTmp(Request, true)
      else if s.tmp.Some? && |s.tmp.value| <= c.totalSize then Requesting(|s.tmp.value|, Some((c.totalSize, c.sha256)))
      else RemovingTmp(Request, true)
  }

  function Finish(s: State, o: Outcome): State { s.(pc := Idle, outcomes := s.outcomes + [o]) }

  function Resolve(s: State, t: Then): State {
    match t
    case Request => s.(pc := Requesting(0, None))
    case GiveUp => Finish(s, Failed)
  }

  /** A non-retryable error: both sidecars are discarded. */
  function Discard(s: State): State { s.(pc := RemovingTmp(GiveUp, true)) }

  /** The checks on FILE_STREAM_BEGIN, then the checkpoint, then the check of the offset. */
  function DoBegin(s: State, path: string, info: Info): State
    requires s.pc.Requesting?
  {
    if || path != s.remote || info.totalSize > STREAM_FILE_MAX_BYTES
       || info.offset > info.totalSize || info.length > info.totalSize - info.offset
       || (s.pc.expected.Some? && s.pc.expected.value != (info.totalSize, info.sha256))
       || !IsDigest(info.sha256)
    then Discard(s)
    else
      var t := s.(meta := Meta(Checkpoint(s.remote, info.totalSize, info.sha256)),
                  declared := s.declared + {Checkpoint(path, info.totalSize, info.sha256)});
      if info.offset != s.pc.offset then Discard(t)
      else t.(pc := Receiving(info, 0), tmp := if s.tmp.Some? then s.tmp else Some([]))
  }

  function DoChunk(s: State, offset: nat, data: seq<byte>): State
    requires s.pc.Receiving?
  {
    if || data == [] || |data| > FILE_STREAM_CHUNK_BYTES || offset != s.pc.info.offset + s.pc.received
       || s.pc.received + |data| > s.pc.info.length || s.tmp.None?
    then Discard(s)
    else s.(tmp := Some(s.tmp.value + data), pc := s.pc.(received := s.pc.received + |data|))
  }

  function DoEnd(s: State, bytes: nat, sha256: string): State
    requires s.pc.Receiving?
  {
    if bytes != s.pc.received || s.pc.received != s.pc.info.length || sha256 != s.pc.info.sha256 then Discard(s)
    else s.(pc := Verifying(s.pc.info))
  }

  /** The client's own next step; `sha` is the digest function. */
  function DoStep(sha: seq<byte> -> string, s: State): Option<State> {
    match s.pc
    case Starting => Some(s.(pc := Decide(s)))
    case RemovingTmp(then_, alsoMeta) =>
      var t := s.(tmp := None);
      Some(if alsoMeta then t.(pc := RemovingMeta(then_)) else Resolve(t, then_))
    case RemovingMeta(then_) => Some(Resolve(s.(meta := NoMeta), then_))
    case Verifying(info) =>
      if s.tmp.None? || |s.tmp.value| != info.totalSize then Some(Finish(s, SizeMismatch))
      else if sha(s.tmp.value) != info.sha256 then Some(Finish(s, DigestMismatch))
      else Some(s.(pc := Renaming(info)))
    case Renaming(info) => Some(s.(dest := s.tmp, tmp := None, pc := Finishing(info)))
    case Finishing(info) => Some(Finish(s.(meta := NoMeta), Done(info.sha256)))
    case _ => None
  }

  function Next(sha: seq<byte> -> string, s: State, a: Action): Option<State> {
    match a
    case Launch(remote) => if s.pc.Idle? then Some(s.(pc := Starting, remote := remote)) else None
    case Step => DoStep(sha, s)
    case Begin(path, info) => if s.pc.Requesting? then Some(DoBegin(s, path, info)) else None
    case Chunk(offset, data) => if s.pc.Receiving? then Some(DoChunk(s, offset, data)) else None
    case End(bytes, sha256) => if s.pc.Receiving? then Some(DoEnd(s, bytes, sha256)) else None
    case Interrupted(retry) =>
      if s.pc.Requesting? || s.pc.Receiving?
      then Some(if retry then s.(pc := Starting) else Finish(s, Failed)) else None
    case Refused => if s.pc.Requesting? || s.pc.Receiving? then Some(Discard(s)) else None
    case Crash(kept) =>
      Some(s.(pc := Idle, tmp := if s.tmp.Some? && kept <= |s.tmp.value| then Some(s.tmp.value[..kept]) else s.tmp))
  }

  function Run(sha: seq<byte> -> string, s: State, actions: seq<Action>): Option<State> {
    if actions == [] then Some(s)
    else
      var front := Run(sha, s, actions[..|actions| - 1]);
      if front.None? then None else Next(sha, front.value, actions[|actions| - 1])
  }

  // ---------- without trusting the server ----------

  /** The server has declared these bytes, for the path, by size and digest. */
  predicate Declared(sha: seq<byte> -> string, s: State, remote: string, data: seq<byte>) {
    |data| <= STREAM_FILE_MAX_BYTES && Checkpoint(remote, |data|, sha(data)) in s.declared
  }

  /** The destination holds what it held at first, or bytes of a declared size with the declared digest. */
  predicate DestinationChecked(sha: seq<byte> -> string, initial: Option<seq<byte>>, s: State) {
    || s.dest == initial
    || (s.dest.Some? && exists d :: d in s.declared && Declared(sha, s, d.remote, s.dest.value))
  }

  /** A header that is acted on was declared for this path, within the limits. */
  predicate HeaderAccepted(s: State, info: Info) {
    && Checkpoint(s.remote, info.totalSize, info.sha256) in s.declared
    && info.totalSize <= STREAM_FILE_MAX_BYTES && IsDigest(info.sha256)
  }

  /** A header that is being acted on was declared; a file about to be renamed has been checked against it. */
  predicate HeaderDeclared(sha: seq<byte> -> string, s: State) {
    && (s.pc.Receiving? || s.pc.Verifying? || s.pc.Renaming? || s.pc.Finishing? ==> HeaderAccepted(s, s.pc.info))
    && (s.pc.Renaming? ==> s.tmp.Some? && |s.tmp.value| == s.pc.info.totalSize && sha(s.tmp.value) == s.pc.info.sha256)
    && (s.pc.Finishing? ==>
          s.dest.Some? && |s.dest.value| == s.pc.info.totalSize && sha(s.dest.value) == s.pc.info.sha256)
  }

  lemma KeepDestinationChecked(sha: seq<byte> -> string, initial: Option<seq<byte>>, s: State, a: Action)
    requires DestinationChecked(sha, initial, s) && HeaderDeclared(sha, s) && Next(sha, s, a).Some?
    ensures DestinationChecked(sha, initial, Next(sha, s, a).value)
  {
    var t := Next(sha, s, a).value;
    if a.Step? && s.pc.Renaming? {
      assert Checkpoint(s.remote, s.pc.info.totalSize, s.pc.info.sha256) in t.declared;
    } else if s.dest != initial {
      var d :| d in s.declared && Declared(sha, s, d.remote, s.dest.value);
      assert d in t.declared && Declared(sha, t, d.remote, t.dest.value);
    }
  }

  /** Even against an arbitrary server, only bytes matching a declared size and digest are ever renamed into place. */
  lemma {:induction false} DestinationOnlyVerified(sha: seq<byte> -> string, s: State, actions: seq<Action>)
    requires s.pc.Idle? && Run(sha, s, actions).Some?
    ensures DestinationChecked(sha, s.dest, Run(sha, s, actions).value)
    ensures HeaderDeclared(sha, Run(sha, s, actions).value)
  {
    if actions != [] {
      DestinationOnlyVerified(sha, s, actions[..|actions| - 1]);
      KeepDestinationChecked(sha, s.dest, Run(sha, s, actions[..|actions| - 1]).value, actions[|actions| - 1]);
    }
  }

  /** A step that reports success with a digest leaves bytes declared for the requested path under that digest. */
  lemma SuccessMeansDelivered(sha: seq<byte> -> string, s: State, actions: seq<Action>, a: Action, digest: string)
    requires s.pc.Idle? && Run(sha, s, actions).Some? && Next(sha, Run(sha, s, actions).value, a).Some?
    ensures var before := Run(sha, s, actions).value;
            var after := Next(sha, before, a).value;
            after.outcomes == before.outcomes + [Done(digest)] ==>
              && after.dest.Some? && sha(after.dest.value) == digest
              && Declared(sha, after, after.remote, after.dest.value)
  {
    DestinationOnlyVerified(sha, s, actions);
    var before := Run(sha, s, actions).value;
    var after := Next(sha, before, a).value;
    if after.outcomes == before.outcomes + [Done(digest)] {
      assert after.outcomes[|before.outcomes|] == Done(digest);
    }
  }

  // ---------- an honest server ----------

  /** The files a digest names: `content` undoes the digest function on everything the server serves. */
  predicate Names(sha: seq<byte> -> string, content: string -> seq<byte>, totalSize: nat, sha256: string) {
    |content(sha256)| == totalSize && sha(content(sha256)) == sha256
  }

  predicate Honest(sha: seq<byte> -> string, content: string -> seq<byte>, s: State, a: Action) {
    && (a.Begin? ==> Names(sha, content, a.info.totalSize, a.info.sha256))
    && (a.Chunk? && s.pc.Receiving? ==>
          var whole := content(s.pc.info.sha256);
          a.offset + |a.data| <= |whole| && a.data == whole[a.offset..a.offset + |a.data|])
  }

  /** Every action of the run is honest, and, where `full` is set, every header promises the whole rest of the file. */
  predicate HonestRun(sha: seq<byte> -> string, content: string -> seq<byte>, s: State, actions: seq<Action>,
                      full: bool) {
    forall i :: 0 <= i < |actions| ==>
      var before := Run(sha, s, actions[..i]);
      && before.Some? && Honest(sha, content, before.value, actions[i])
      && (full && actions[i].Begin? ==> actions[i].info.offset + actions[i].info.length == actions[i].info.totalSize)
  }

  /** The temporary file is a prefix of what the checkpoint names. */
  predicate PrefixOfNamed(sha: seq<byte> -> string, content: string -> seq<byte>, tmp: Option<seq<byte>>, meta: Meta) {
    meta.Meta? && tmp.Some? && IsDigest(meta.checkpoint.sha256) ==>
      && Names(sha, content, meta.checkpoint.totalSize, meta.checkpoint.sha256)
      && tmp.value <= content(meta.checkpoint.sha256)
  }

  /** The checkpoint on disk is the one for this header. */
  predicate Checkpointed(s: State, totalSize: nat, sha256: string) {
    s.meta == Meta(Checkpoint(s.remote, totalSize, sha256)) && IsDigest(sha256)
  }

  predicate Consistent(sha: seq<byte> -> string, content: string -> seq<byte>, s: State) {
    && PrefixOfNamed(sha, content, s.tmp, s.meta)
    && match s.pc
       case RemovingMeta(_) => s.tmp.None?
       case Requesting(offset, expected) =>
         if expected.None? then offset == 0 && s.tmp.None?
         else Checkpointed(s, expected.value.0, expected.value.1) && s.tmp.Some? && |s.tmp.value| == offset
       case Receiving(info, received) =>
         && Checkpointed(s, info.totalSize, info.sha256)
         && s.tmp.Some? && |s.tmp.value| == info.offset + received
       case Verifying(info) =>
         && Checkpointed(s, info.totalSize, info.sha256)
         && s.tmp.Some? && |s.tmp.value| == info.offset + info.length
       case Renaming(info) =>
         && Checkpointed(s, info.totalSize, info.sha256)
         && s.tmp.Some? && |s.tmp.value| == info.totalSize
       case _ => true
  }

  /** The destination holds what it held at first, or exactly a file that some header named. */
  predicate DestinationNamed(content: string -> seq<byte>, initial: Option<seq<byte>>, s: State) {
    s.dest == initial || exists d :: d in s.declared && s.dest == Some(content(d.sha256))
  }

  lemma KeepDestinationNamed(sha: seq<byte> -> string, content: string -> seq<byte>,
                             initial: Option<seq<byte>>, s: State, a: Action)
    requires Consistent(sha, content, s) && HeaderDeclared(sha, s) && Next(sha, s, a).Some?
    requires DestinationNamed(content, initial, s)
    ensures DestinationNamed(content, initial, Next(sha, s, a).value)
  {
    var t := Next(sha, s, a).value;
    if s.pc.Renaming? && a.Step? {
      assert s.tmp.value == content(s.pc.info.sha256);
      assert Checkpoint(s.remote, s.pc.info.totalSize, s.pc.info.sha256) in t.declared;
    } else if s.dest != initial {
      var d :| d in s.declared && s.dest == Some(content(d.sha256));
      assert d in t.declared;
    }
  }

  /** One honest action keeps the temporary file a prefix, whatever crashes and retries surround it. */
  lemma KeepConsistent(sha: seq<byte> -> string, content: string -> seq<byte>, s: State, a: Action)
    requires Consistent(sha, content, s) && Honest(sha, content, s, a) && Next(sha, s, a).Some?
    ensures Consistent(sha, content, Next(sha, s, a).value)
  {
    if a.Chunk? {
      KeepChunk(sha, content, s, a.offset, a.data);
    }
  }

  lemma KeepChunk(sha: seq<byte> -> string, content: string -> seq<byte>, s: State, offset: nat, data: seq<byte>)
    requires Consistent(sha, content, s) && s.pc.Receiving? && Honest(sha, content, s, Chunk(offset, data))
    ensures Consistent(sha, content, DoChunk(s, offset, data))
  {
    var whole := content(s.pc.info.sha256);
    if DoChunk(s, offset, data).pc.Receiving? {
      assert s.tmp.value + data == whole[..offset + |data|];
    }
  }

  /**
   * In every state of every honest run, a checkpoint on disk names a file of which the temporary
   * file is a prefix, and the destination is untouched or exactly a named file.
   */
  lemma {:induction false} CheckpointNamesPrefix(sha: seq<byte> -> string, content: string -> seq<byte>,
                                                 s: State, actions: seq<Action>, full: bool)
    requires s.pc.Idle? && PrefixOfNamed(sha, content, s.tmp, s.meta)
    requires Run(sha, s, actions).Some? && HonestRun(sha, content, s, actions, full)
    ensures Consistent(sha, content, Run(sha, s, actions).value)
    ensures DestinationNamed(content, s.dest, Run(sha, s, actions).value)
  {
    if actions != [] {
      var n := |actions| - 1;
      HonestPrefix(sha, content, s, actions, full);
      CheckpointNamesPrefix(sha, content, s, actions[..n], full);
      DestinationOnlyVerified(sha, s, actions[..n]);
      KeepConsistent(sha, content, Run(sha, s, actions[..n]).value, actions[n]);
      KeepDestinationNamed(sha, content, s.dest, Run(sha, s, actions[..n]).value, actions[n]);
    }
  }

  lemma HonestPrefix(sha: seq<byte> -> string, content: string -> seq<byte>, s: State, actions: seq<Action>, full: bool)
    requires actions != [] && HonestRun(sha, content, s, actions, full)
    ensures HonestRun(sha, content, s, actions[..|actions| - 1], full)
  {
    var front := actions[..|actions| - 1];
    forall i | 0 <= i < |front|
      ensures front[i] == actions[i] && front[..i] == actions[..i]
    {
    }
  }

  predicate NoMismatch(outcomes: seq<Outcome>) { SizeMismatch !in outcomes && DigestMismatch !in outcomes }

  /** While a full-range stream is being received or checked, its range ends at the end of the file. */
  predicate FullRange(s: State) {
    s.pc.Receiving? || s.pc.Verifying? ==> s.pc.info.offset + s.pc.info.length == s.pc.info.totalSize
  }

  lemma KeepNoMismatch(sha: seq<byte> -> string, content: string -> seq<byte>, s: State, a: Action)
    requires Consistent(sha, content, s) && FullRange(s) && NoMismatch(s.outcomes)
    requires Next(sha, s, a).Some?
    requires a.Begin? ==> a.info.offset + a.info.length == a.info.totalSize
    ensures FullRange(Next(sha, s, a).value) && NoMismatch(Next(sha, s, a).value.outcomes)
  {
    if s.pc.Verifying? {
      assert s.tmp.value == content(s.pc.info.sha256);
    }
  }

  /** With full ranges the size and digest checks never fail, so no honest download ends in a mismatch. */
  lemma {:induction false} MismatchUnreachable(sha: seq<byte> -> string, content: string -> seq<byte>,
                                               s: State, actions: seq<Action>)
    requires s.pc.Idle? && PrefixOfNamed(sha, content, s.tmp, s.meta) && s.outcomes == []
    requires Run(sha, s, actions).Some? && HonestRun(sha, content, s, actions, true)
    ensures FullRange(Run(sha, s, actions).value) && NoMismatch(Run(sha, s, actions).value.outcomes)
  {
    if actions != [] {
      var n := |actions| - 1;
      HonestPrefix(sha, content, s, actions, true);
      MismatchUnreachable(sha, content, s, actions[..n]);
      CheckpointNamesPrefix(sha, content, s, actions[..n], true);
      KeepNoMismatch(sha, content, Run(sha, s, actions[..n]).value, actions[n]);
    }
  }
}
