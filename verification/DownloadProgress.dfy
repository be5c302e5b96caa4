/**
 * What a download gets done: it resumes exactly where the checkpoint and the temporary file allow it, starts
 * over exactly where they do not, and an honest stream of the rest completes it.
 */
module DownloadProgress {
  import opened Base
  import opened Download

  lemma {:induction false} RunConcat(sha: seq<byte> -> string, s: State, a: seq<Action>, b: seq<Action>)
    requires Run(sha, s, a).Some?
    ensures Run(sha, s, a + b) == Run(sha, Run(sha, s, a).value, b)
    decreases |b|
  {
    if b == [] {
      assert a + b == a;
    } else {
      RunConcat(sha, s, a, b[..|b| - 1]);
      assert (a + b)[..|a + b| - 1] == a + b[..|b| - 1];
    }
  }

  /** A run, one action at a time from the front. */
  lemma RunCons(sha: seq<byte> -> string, s: State, a: Action, t: State, rest: seq<Action>)
    requires Next(sha, s, a) == Some(t)
    ensures Run(sha, s, [a] + rest) == Run(sha, t, rest)
  {
    assert Run(sha, s, []) == Some(s) && [a][..0] == [];
    RunConcat(sha, s, [a], rest);
  }

  lemma RunTwo(sha: seq<byte> -> string, s: State, a: Action, t: State, b: Action)
    requires Next(sha, s, a) == Some(t)
    ensures Run(sha, s, [a, b]) == Next(sha, t, b)
  {
    RunCons(sha, s, a, t, [b]);
    assert [a] + [b] == [a, b] && Run(sha, t, []) == Some(t) && [b][..0] == [];
  }

  // ---------- where a download starts ----------

  /** The checkpoint is for this path and within the limits, and the temporary file is no longer than it says. */
  predicate Resumable(s: State, remote: string) {
    && s.meta.Meta? && s.meta.checkpoint.remote == remote
    && s.meta.checkpoint.totalSize <= STREAM_FILE_MAX_BYTES && IsDigest(s.meta.checkpoint.sha256)
    && s.tmp.Some? && |s.tmp.value| <= s.meta.checkpoint.totalSize
  }

  lemma ResumesAtTemporary(sha: seq<byte> -> string, s: State, remote: string)
    requires s.pc.Idle? && Resumable(s, remote)
    ensures var c := s.meta.checkpoint;
            Run(sha, s, [Launch(remote), Step])
            == Some(s.(remote := remote, pc := Requesting(|s.tmp.value|, Some((c.totalSize, c.sha256)))))
  {
    RunTwo(sha, s, Launch(remote), s.(pc := Starting, remote := remote), Step);
  }

  /** The client's own steps from the launch to the request or the failure. */
  function Opening(s: State, remote: string): seq<Action> {
    [Launch(remote), Step]
    + if Resumable(s, remote) then [] else if s.meta.NoMeta? then [Step] else [Step, Step]
  }

  lemma StartsOver(sha: seq<byte> -> string, s: State, remote: string)
    requires s.pc.Idle? && !Resumable(s, remote)
    ensures var clean := s.(remote := remote, tmp := None, meta := NoMeta);
            Run(sha, s, Opening(s, remote))
            == Some(if s.meta.BadMeta? then clean.(outcomes := s.outcomes + [Failed])
                    else clean.(pc := Requesting(0, None)))
  {
    var started := s.(pc := Starting, remote := remote);
    var removing := started.(pc := Decide(started));
    RunTwo(sha, s, Launch(remote), started, Step);
    RunConcat(sha, s, [Launch(remote), Step], if s.meta.NoMeta? then [Step] else [Step, Step]);
    if s.meta.NoMeta? {
      RunCons(sha, removing, Step, removing.(tmp := None, pc := Requesting(0, None)), []);
      assert [Step] + [] == [Step];
    } else {
      RunTwo(sha, removing, Step, removing.(tmp := None, pc := RemovingMeta(removing.pc.then_)), Step);
    }
  }

  /**
   * A launch reaches a request for exactly the bytes that are missing, expecting what the checkpoint names,
   * if and only if the sidecars can be resumed; from an unreadable checkpoint it fails, else it starts over.
   */
  lemma LaunchAsksForTheRest(sha: seq<byte> -> string, s: State, remote: string)
    requires s.pc.Idle?
    ensures Run(sha, s, Opening(s, remote)).Some?
    ensures var t := Run(sha, s, Opening(s, remote)).value;
            && (Resumable(s, remote) <==> t.pc.Requesting? && t.pc.expected.Some?)
            && (Resumable(s, remote) ==>
                  && t.pc.offset == |s.tmp.value| && t.tmp == s.tmp && t.meta == s.meta
                  && t.pc.expected == Some((s.meta.checkpoint.totalSize, s.meta.checkpoint.sha256)))
            && (!Resumable(s, remote) ==> t.tmp.None? && t.meta.NoMeta?)
            && (!Resumable(s, remote) && !s.meta.BadMeta? ==> t.pc == Requesting(0, None))
            && (s.meta.BadMeta? ==> t.pc.Idle? && t.outcomes == s.outcomes + [Failed])
            && t.dest == s.dest && t.remote == remote && (!s.meta.BadMeta? ==> t.outcomes == s.outcomes)
  {
    if Resumable(s, remote) {
      ResumesAtTemporary(sha, s, remote);
    } else {
      StartsOver(sha, s, remote);
    }
  }

  /** What is being received can be resumed. */
  lemma ReceivingIsResumable(sha: seq<byte> -> string, content: string -> seq<byte>, t: State)
    requires Consistent(sha, content, t) && HeaderDeclared(sha, t) && t.pc.Receiving?
    ensures Resumable(t, t.remote) && |t.tmp.value| == t.pc.info.offset + t.pc.received
    ensures t.meta.checkpoint == Checkpoint(t.remote, t.pc.info.totalSize, t.pc.info.sha256)
  {}

  /** The state of an honest run while it receives. */
  lemma HonestIsResumable(sha: seq<byte> -> string, content: string -> seq<byte>, s: State, actions: seq<Action>,
                          full: bool, t: State)
    requires s.pc.Idle? && PrefixOfNamed(sha, content, s.tmp, s.meta)
    requires Run(sha, s, actions) == Some(t) && HonestRun(sha, content, s, actions, full) && t.pc.Receiving?
    ensures Resumable(t, t.remote) && |t.tmp.value| == t.pc.info.offset + t.pc.received
    ensures t.meta.checkpoint == Checkpoint(t.remote, t.pc.info.totalSize, t.pc.info.sha256)
  {
    CheckpointNamesPrefix(sha, content, s, actions, full);
    DestinationOnlyVerified(sha, s, actions);
    ReceivingIsResumable(sha, content, t);
  }

  /** In every honest run, a stream that breaks off is asked for again right behind what has arrived. */
  lemma InterruptedResumes(sha: seq<byte> -> string, content: string -> seq<byte>, s: State, actions: seq<Action>,
                           full: bool, t: State)
    requires s.pc.Idle? && PrefixOfNamed(sha, content, s.tmp, s.meta)
    requires Run(sha, s, actions) == Some(t) && HonestRun(sha, content, s, actions, full) && t.pc.Receiving?
    ensures var info, behind := t.pc.info, t.pc.info.offset + t.pc.received;
            Run(sha, s, actions + [Interrupted(true), Step])
            == Some(t.(pc := Requesting(behind, Some((info.totalSize, info.sha256)))))
  {
    HonestIsResumable(sha, content, s, actions, full, t);
    RunConcat(sha, s, actions, [Interrupted(true), Step]);
    RunTwo(sha, t, Interrupted(true), t.(pc := Starting), Step);
  }

  /** A crash loses at most the unsynchronised tail: the next launch for the path resumes behind what was kept. */
  lemma CrashResumes(sha: seq<byte> -> string, content: string -> seq<byte>, s: State, actions: seq<Action>,
                     full: bool, t: State, kept: nat)
    requires s.pc.Idle? && PrefixOfNamed(sha, content, s.tmp, s.meta)
    requires Run(sha, s, actions) == Some(t) && HonestRun(sha, content, s, actions, full) && t.pc.Receiving?
    requires t.tmp.Some? && kept <= |t.tmp.value|
    ensures var info, left := t.pc.info, t.(tmp := Some(t.tmp.value[..kept]));
            Run(sha, s, actions + [Crash(kept)] + [Launch(t.remote), Step])
            == Some(left.(pc := Requesting(kept, Some((info.totalSize, info.sha256)))))
  {
    var crashed := t.(pc := Idle, tmp := Some(t.tmp.value[..kept]));
    HonestIsResumable(sha, content, s, actions, full, t);
    assert (actions + [Crash(kept)])[..|actions|] == actions;
    RunConcat(sha, s, actions + [Crash(kept)], [Launch(t.remote), Step]);
    ResumesAtTemporary(sha, crashed, t.remote);
  }

  // ---------- what is rejected ----------

  /** Exactly what each kind of response must be to be accepted. */
  predicate Acceptable(t: State, a: Action) {
    match a
    case Begin(path, info) =>
      && t.pc.Requesting? && path == t.remote && info.offset == t.pc.offset
      && info.offset + info.length <= info.totalSize <= STREAM_FILE_MAX_BYTES && IsDigest(info.sha256)
      && (t.pc.expected.Some? ==> t.pc.expected.value == (info.totalSize, info.sha256))
    case Chunk(offset, data) =>
      && t.pc.Receiving? && t.tmp.Some? && 0 < |data| <= FILE_STREAM_CHUNK_BYTES
      && offset == t.pc.info.offset + t.pc.received && t.pc.received + |data| <= t.pc.info.length
    case End(bytes, sha256) =>
      && t.pc.Receiving? && bytes == t.pc.received == t.pc.info.length && sha256 == t.pc.info.sha256
    case _ => false
  }

  /**
   * Whatever is not acceptable, a refusal included, ends the download: the client's next two steps remove both
   * sidecars and report the failure, and the destination is untouched.
   */
  lemma RejectionDiscards(sha: seq<byte> -> string, t: State, a: Action)
    requires (a.Begin? && t.pc.Requesting?) || ((a.Chunk? || a.End?) && t.pc.Receiving?)
          || (a.Refused? && (t.pc.Requesting? || t.pc.Receiving?))
    ensures Next(sha, t, a).Some?
    ensures Acceptable(t, a) <==> Next(sha, t, a).value.pc.Receiving? || Next(sha, t, a).value.pc.Verifying?
    ensures !Acceptable(t, a) ==>
              && Run(sha, t, [a] + [Step, Step]).Some?
              && var u := Run(sha, t, [a] + [Step, Step]).value;
                 && u.pc.Idle? && u.tmp.None? && u.meta.NoMeta? && u.dest == t.dest
                 && u.outcomes == t.outcomes + [Failed]
  {
    var u := Next(sha, t, a).value;
    if !Acceptable(t, a) {
      RunCons(sha, t, a, u, [Step, Step]);
      RunTwo(sha, u, Step, u.(tmp := None, pc := RemovingMeta(GiveUp)), Step);
    }
  }

  /** The verdict on a complete stream: the file is renamed exactly when size and digest are right. */
  lemma VerdictExactly(sha: seq<byte> -> string, t: State)
    requires t.pc.Verifying? && t.tmp.Some?
    ensures Next(sha, t, Step).Some?
    ensures var u, info := Next(sha, t, Step).value, t.pc.info;
            var size, digest := |t.tmp.value| == info.totalSize, sha(t.tmp.value) == info.sha256;
            && (u.pc == Renaming(info) <==> size && digest) && (u.pc.Idle? <==> !size || !digest)
            && u.tmp == t.tmp && u.meta == t.meta && u.dest == t.dest
            && u.outcomes == t.outcomes + (if !size then [SizeMismatch] else if !digest then [DigestMismatch] else [])
  {}

  // ---------- how it ends ----------

  function Flatten(chunks: seq<seq<byte>>): seq<byte> {
    if chunks == [] then [] else Flatten(chunks[..|chunks| - 1]) + chunks[|chunks| - 1]
  }

  /** Chunks that the client accepts, which together make `data`. */
  predicate Tiles(chunks: seq<seq<byte>>, data: seq<byte>) {
    && Flatten(chunks) == data
    && forall i :: 0 <= i < |chunks| ==> 0 < |chunks[i]| <= FILE_STREAM_CHUNK_BYTES
  }

  /** The chunks as the server sends them, each at the offset behind the ones before. */
  function Sent(offset: nat, chunks: seq<seq<byte>>): seq<Action> {
    if chunks == [] then []
    else
      var front := chunks[..|chunks| - 1];
      Sent(offset, front) + [Chunk(offset + |Flatten(front)|, chunks[|chunks| - 1])]
  }

  lemma ReceivesOne(sha: seq<byte> -> string, s: State, got: seq<byte>, data: seq<byte>)
    requires s.pc.Receiving? && s.tmp.Some? && 0 < |data| <= FILE_STREAM_CHUNK_BYTES
    requires |got + data| <= s.pc.info.length
    ensures var u := s.(pc := s.pc.(received := |got|), tmp := Some(s.tmp.value + got));
            Next(sha, u, Chunk(s.pc.info.offset + |got|, data))
            == Some(s.(pc := s.pc.(received := |got + data|), tmp := Some(s.tmp.value + (got + data))))
  {
    assert s.tmp.value + got + data == s.tmp.value + (got + data);
  }

  lemma {:induction false} ReceivesAll(sha: seq<byte> -> string, s: State, chunks: seq<seq<byte>>)
    requires s.pc.Receiving? && s.pc.received == 0 && s.tmp.Some?
    requires Tiles(chunks, Flatten(chunks)) && |Flatten(chunks)| <= s.pc.info.length
    ensures Run(sha, s, Sent(s.pc.info.offset, chunks))
            == Some(s.(pc := s.pc.(received := |Flatten(chunks)|), tmp := Some(s.tmp.value + Flatten(chunks))))
  {
    if chunks == [] {
      assert s.tmp.value + [] == s.tmp.value;
    } else {
      var front, last := chunks[..|chunks| - 1], chunks[|chunks| - 1];
      var sent := Sent(s.pc.info.offset, front);
      ReceivesAll(sha, s, front);
      ReceivesOne(sha, s, Flatten(front), last);
      assert (sent + [Chunk(s.pc.info.offset + |Flatten(front)|, last)])[..|sent|] == sent;
    }
  }

  /** The last four actions, once every byte has arrived and is the file the header names. */
  lemma Completes(sha: seq<byte> -> string, s: State)
    requires s.pc.Receiving? && s.pc.received == s.pc.info.length && s.tmp.Some?
    requires |s.tmp.value| == s.pc.info.totalSize && sha(s.tmp.value) == s.pc.info.sha256
    ensures Run(sha, s, [End(s.pc.received, s.pc.info.sha256), Step, Step, Step])
            == Some(s.(pc := Idle, tmp := None, meta := NoMeta, dest := s.tmp,
                       outcomes := s.outcomes + [Done(s.pc.info.sha256)]))
  {
    var info := s.pc.info;
    var end, ended := End(s.pc.received, info.sha256), s.(pc := Verifying(info));
    RunCons(sha, s, end, ended, [Step, Step, Step]);
    RunCons(sha, ended, Step, s.(pc := Renaming(info)), [Step, Step]);
    RunTwo(sha, s.(pc := Renaming(info)), Step, s.(pc := Finishing(info), dest := s.tmp, tmp := None), Step);
    assert [end] + [Step, Step, Step] == [end, Step, Step, Step] && [Step] + [Step, Step] == [Step, Step, Step];
  }

  /** A request whose answer can be the file `content(sha256)`. */
  predicate CanServe(sha: seq<byte> -> string, content: string -> seq<byte>, t: State, totalSize: nat, sha256: string) {
    && Names(sha, content, totalSize, sha256) && totalSize <= STREAM_FILE_MAX_BYTES && IsDigest(sha256)
    && t.pc.Requesting? && t.pc.offset <= totalSize
    && (t.pc.expected.Some? ==> t.pc.expected.value == (totalSize, sha256))
    && (if t.tmp.Some? then t.tmp.value else []) == content(sha256)[..t.pc.offset]
  }

  /** The chunks, the end, and the client's steps after it. */
  function Stream(info: Info, chunks: seq<seq<byte>>): seq<Action> {
    Sent(info.offset, chunks) + [End(info.length, info.sha256), Step, Step, Step]
  }

  /** The header that answers a request with the whole rest of the file. */
  function Header(t: State, totalSize: nat, sha256: string): Info
    requires t.pc.Requesting? && t.pc.offset <= totalSize
  {
    Info(totalSize, t.pc.offset, totalSize - t.pc.offset, sha256)
  }

  /** The server's honest answer to a request: the header, the rest of the file in chunks, the end. */
  function Answer(t: State, totalSize: nat, sha256: string, chunks: seq<seq<byte>>): seq<Action>
    requires t.pc.Requesting? && t.pc.offset <= totalSize
  {
    [Begin(t.remote, Header(t, totalSize, sha256))] + Stream(Header(t, totalSize, sha256), chunks)
  }

  lemma BeginIsAccepted(sha: seq<byte> -> string, content: string -> seq<byte>, t: State, totalSize: nat,
                        sha256: string)
    requires CanServe(sha, content, t, totalSize, sha256)
    ensures var info := Header(t, totalSize, sha256);
            DoBegin(t, t.remote, info)
            == t.(meta := Meta(Checkpoint(t.remote, totalSize, sha256)),
                  declared := t.declared + {Checkpoint(t.remote, totalSize, sha256)},
                  pc := Receiving(info, 0), tmp := Some(content(sha256)[..t.pc.offset]))
  {}

  /** The stream behind an accepted header, run to its end. */
  lemma StreamCompletes(sha: seq<byte> -> string, whole: seq<byte>, s: State, chunks: seq<seq<byte>>)
    requires s.pc.Receiving? && s.pc.received == 0 && s.pc.info.offset <= s.pc.info.totalSize == |whole|
    requires s.pc.info.length == |whole| - s.pc.info.offset && sha(whole) == s.pc.info.sha256
    requires s.tmp == Some(whole[..s.pc.info.offset]) && Tiles(chunks, whole[s.pc.info.offset..])
    ensures Run(sha, s, Stream(s.pc.info, chunks))
            == Some(s.(pc := Idle, tmp := None, meta := NoMeta, dest := Some(whole),
                       outcomes := s.outcomes + [Done(s.pc.info.sha256)]))
  {
    var info, sent := s.pc.info, Sent(s.pc.info.offset, chunks);
    ReceivesAll(sha, s, chunks);
    assert whole[..info.offset] + whole[info.offset..] == whole;
    var received := s.(pc := s.pc.(received := info.length), tmp := Some(whole));
    Completes(sha, received);
    RunConcat(sha, s, sent, [End(info.length, info.sha256), Step, Step, Step]);
  }

  /** However the rest of the file is cut into chunks, an honest answer completes the download. */
  lemma HonestAnswerCompletes(sha: seq<byte> -> string, content: string -> seq<byte>, t: State, totalSize: nat,
                              sha256: string, chunks: seq<seq<byte>>)
    requires CanServe(sha, content, t, totalSize, sha256) && Tiles(chunks, content(sha256)[t.pc.offset..])
    ensures var u := Run(sha, t, Answer(t, totalSize, sha256, chunks));
            && u.Some? && u.value.pc.Idle? && u.value.dest == Some(content(sha256))
            && u.value.tmp.None? && u.value.meta.NoMeta? && u.value.outcomes == t.outcomes + [Done(sha256)]
  {
    var info := Header(t, totalSize, sha256);
    var receiving := DoBegin(t, t.remote, info);
    BeginIsAccepted(sha, content, t, totalSize, sha256);
    StreamCompletes(sha, content(sha256), receiving, chunks);
    RunCons(sha, t, Begin(t.remote, info), receiving, Stream(info, chunks));
  }

  /**
   * A download that broke off completes from where it stopped, and a fresh one from the beginning: launch,
   * the client's steps, and an honest answer leave exactly the named file and no sidecars.
   */
  lemma LaunchCompletes(sha: seq<byte> -> string, content: string -> seq<byte>, s: State, remote: string,
                        totalSize: nat, sha256: string, chunks: seq<seq<byte>>)
    requires s.pc.Idle? && !s.meta.BadMeta? && PrefixOfNamed(sha, content, s.tmp, s.meta)
    requires Names(sha, content, totalSize, sha256) && totalSize <= STREAM_FILE_MAX_BYTES && IsDigest(sha256)
    requires Resumable(s, remote) ==> totalSize == s.meta.checkpoint.totalSize && sha256 == s.meta.checkpoint.sha256
    requires Tiles(chunks, content(sha256)[if Resumable(s, remote) then |s.tmp.value| else 0..])
    ensures var t := Run(sha, s, Opening(s, remote));
            && t.Some? && t.value.pc.Requesting? && t.value.pc.offset <= totalSize
            && var u := Run(sha, s, Opening(s, remote) + Answer(t.value, totalSize, sha256, chunks));
               && u.Some? && u.value.pc.Idle? && u.value.dest == Some(content(sha256))
               && u.value.tmp.None? && u.value.meta.NoMeta? && u.value.outcomes == s.outcomes + [Done(sha256)]
  {
    LaunchAsksForTheRest(sha, s, remote);
    var t := Run(sha, s, Opening(s, remote)).value;
    assert content(sha256)[..0] == [];
    RunConcat(sha, s, Opening(s, remote), Answer(t, totalSize, sha256, chunks));
    HonestAnswerCompletes(sha, content, t, totalSize, sha256, chunks);
  }
}
