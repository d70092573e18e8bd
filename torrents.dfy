/** The torrent side of the download helper: collecting the completed
    torrents of every target tag without duplicates, choosing the target
    folder by tag, the copy that never overwrites, and the tagging that
    records whether the copy succeeded. */
module Torrents {
  import opened Common
  import opened Text
  import opened Paths
  import opened PathMapping

  /** A torrent as the torrent manager's API describes it; `tags` is None
      when the record has no 'tags' field. */
  datatype Torrent = Torrent(hash: string, name: string, savePath: string, tags: Option<string>)

  /** The helper's settings: TARGETS (tag to destination folder, in the
      order of the configuration), the done tag and whether Windows paths
      are translated. */
  datatype Settings = Settings(targets: seq<(string, string)>, doneTag: string, translate: bool)

  /** The tag the helper sets when a copy did not happen (line 244). */
  const FailedTag: string := "✘"

  /** Lines 154, 192 and 225: the torrent's tags split at every ',', a
      missing field read as "". Tags are not trimmed. */
  function TagList(t: Torrent): (tags: seq<string>)
    ensures |tags| >= 1
  {
    Split(if t.tags.Some? then t.tags.value else "", ',')
  }

  // ---------------------------------------------------------------------
  // get_completed_torrents
  // ---------------------------------------------------------------------

  /** The pairs `hash: torrent` of line 120, in list order. */
  function HashPairs(all: seq<Torrent>): (ps: seq<(string, Torrent)>)
    ensures |ps| == |all|
    ensures forall i :: 0 <= i < |all| ==> ps[i] == (all[i].hash, all[i])
  {
    seq(|all|, i requires 0 <= i < |all| => (all[i].hash, all[i]))
  }

  /** Lines 120-121: one torrent per hash, keyed in order of first
      appearance, each key holding the last record with that hash. */
  function DedupByHash(all: seq<Torrent>): seq<Torrent> {
    ValuesOf(FromPairs(HashPairs(all)))
  }

  /** The last torrent of `all` with hash `h`, if any. */
  function LastWithHash(all: seq<Torrent>, h: string): (r: Option<Torrent>)
    ensures r.Some? ==> r.value in all && r.value.hash == h
    ensures r.None? <==> forall i :: 0 <= i < |all| ==> all[i].hash != h
  {
    if all == [] then None
    else if all[|all| - 1].hash == h then Some(all[|all| - 1])
    else LastWithHash(all[..|all| - 1], h)
  }

  lemma {:induction false} LastValueOfHashPairs(all: seq<Torrent>, h: string)
    ensures LastValue(HashPairs(all), h) == LastWithHash(all, h)
  {
    if all != [] {
      assert HashPairs(all)[..|all| - 1] == HashPairs(all[..|all| - 1]);
      LastValueOfHashPairs(all[..|all| - 1], h);
    }
  }

  /** In a dictionary with distinct keys, each entry is what its key looks up. */
  lemma {:induction false} LookupAt<K, V>(d: seq<(K, V)>, i: nat)
    requires DistinctKeys(d) && i < |d|
    ensures Lookup(d, d[i].0) == Some(d[i].1)
  {
    if i > 0 {
      assert DistinctKeys(d[1..]) by {
        forall a, b | 0 <= a < b < |d[1..]| ensures d[1..][a].0 != d[1..][b].0 {
          assert d[1..][a] == d[a + 1] && d[1..][b] == d[b + 1];
        }
      }
      assert d[1..][i - 1] == d[i];
      LookupAt(d[1..], i - 1);
    }
  }

  /** Each entry of the deduplicated table is keyed by its torrent's hash
      and holds the last record with that hash. */
  lemma DedupEntry(all: seq<Torrent>, i: nat)
    requires i < |FromPairs(HashPairs(all))|
    ensures var d := FromPairs(HashPairs(all));
      d[i].0 == d[i].1.hash && LastWithHash(all, d[i].0) == Some(d[i].1)
  {
    var d := FromPairs(HashPairs(all));
    FromPairsSpec(HashPairs(all));
    LookupAt(d, i);
    LastValueOfHashPairs(all, d[i].0);
  }

  /** Deduplication leaves one torrent per hash. */
  lemma DedupDistinct(all: seq<Torrent>)
    ensures var r := DedupByHash(all);
      forall i, j :: 0 <= i < j < |r| ==> r[i].hash != r[j].hash
  {
    var d := FromPairs(HashPairs(all));
    FromPairsSpec(HashPairs(all));
    forall i, j | 0 <= i < j < |d| ensures d[i].1.hash != d[j].1.hash {
      DedupEntry(all, i);
      DedupEntry(all, j);
    }
  }

  /** The torrent kept for a hash is the last record with that hash. */
  lemma DedupLastWins(all: seq<Torrent>)
    ensures var r := DedupByHash(all);
      forall i :: 0 <= i < |r| ==> LastWithHash(all, r[i].hash) == Some(r[i])
  {
    var d := FromPairs(HashPairs(all));
    forall i | 0 <= i < |d| ensures LastWithHash(all, d[i].1.hash) == Some(d[i].1) {
      DedupEntry(all, i);
    }
  }

  /** No hash is lost. */
  lemma DedupCovers(all: seq<Torrent>)
    ensures var r := DedupByHash(all);
      forall k :: 0 <= k < |all| ==> exists i :: 0 <= i < |r| && r[i].hash == all[k].hash
  {
    var ps := HashPairs(all);
    var d := FromPairs(ps);
    var r := DedupByHash(all);
    assert r == ValuesOf(d);
    FromPairsSpec(ps);
    forall k | 0 <= k < |all| ensures exists i :: 0 <= i < |r| && r[i].hash == all[k].hash {
      assert KeysOf(ps)[k] == all[k].hash;
      assert all[k].hash in KeysOf(ps);
      assert all[k].hash in KeysOf(d);
      var i :| 0 <= i < |d| && KeysOf(d)[i] == all[k].hash;
      DedupEntry(all, i);
      assert r[i] == d[i].1;
    }
  }

  /** Lines 93-125: one query per target tag, in order; the answers are
      concatenated and deduplicated. `answers[i]` is what the query for
      the i-th target tag returned, None when it failed (a status other
      than 200 after the one re-login, or a network error), and any
      failure makes the whole collection empty. */
  method GetCompletedTorrents(answers: seq<Option<seq<Torrent>>>) returns (torrents: seq<Torrent>)
    ensures (exists i :: 0 <= i < |answers| && answers[i].None?) ==> torrents == []
    ensures (forall i :: 0 <= i < |answers| ==> answers[i].Some?) ==> torrents == DedupByHash(Concat(answers))
  {
    var all := CollectAnswers(answers);
    if all.None? {
      return [];
    }
    torrents := DedupByHash(all.value);
  }

  /** Lines 96-117: the answers concatenated in order, or None as soon as
      one query failed. */
  method CollectAnswers(answers: seq<Option<seq<Torrent>>>) returns (all: Option<seq<Torrent>>)
    ensures all.None? <==> exists i :: 0 <= i < |answers| && answers[i].None?
    ensures all.Some? ==> all.value == Concat(answers)
  {
    var ts: seq<Torrent> := [];
    for i := 0 to |answers|
      invariant forall k :: 0 <= k < i ==> answers[k].Some?
      invariant ts == Concat(answers[..i])
    {
      if answers[i].None? {
        return None;
      }
      ConcatStep(answers, i);
      ts := ts + answers[i].value;
    }
    assert answers[..|answers|] == answers;
    all := Some(ts);
  }

  /** The torrents of all answers, in order. */
  function Concat(answers: seq<Option<seq<Torrent>>>): seq<Torrent> {
    if answers == [] then []
    else
      var last := answers[|answers| - 1];
      Concat(answers[..|answers| - 1]) + (if last.Some? then last.value else [])
  }

  lemma ConcatStep(answers: seq<Option<seq<Torrent>>>, i: nat)
    requires i < |answers| && answers[i].Some?
    ensures Concat(answers[..i + 1]) == Concat(answers[..i]) + answers[i].value
  {
    assert answers[..i + 1][..i] == answers[..i];
  }

  // ---------------------------------------------------------------------
  // Tag selection
  // ---------------------------------------------------------------------

  /** Line 154: the first tag that is a key of TARGETS. */
  function MatchedTag(tags: seq<string>, targets: seq<(string, string)>): (r: Option<string>)
    ensures r.None? <==> forall i :: 0 <= i < |tags| ==> tags[i] !in KeysOf(targets)
    ensures r.Some? ==> r.value in KeysOf(targets)
    ensures r.Some? ==> exists i :: (0 <= i < |tags| && tags[i] == r.value
                                     && forall k :: 0 <= k < i ==> tags[k] !in KeysOf(targets))
  {
    if tags == [] then None
    else if tags[0] in KeysOf(targets) then Some(tags[0])
    else
      var r := MatchedTag(tags[1..], targets);
      assert r.Some? ==> exists i :: (0 <= i < |tags| && tags[i] == r.value
                                     && forall k :: 0 <= k < i ==> tags[k] !in KeysOf(targets)) by {
        if r.Some? {
          var i :| 0 <= i < |tags[1..]| && tags[1..][i] == r.value
            && forall k :: 0 <= k < i ==> tags[1..][k] !in KeysOf(targets);
          assert tags[i + 1] == r.value;
          forall k | 0 <= k < i + 1 ensures tags[k] !in KeysOf(targets) {
            if k > 0 {
              assert tags[k] == tags[1..][k - 1];
            }
          }
        }
      }
      r
  }

  /** Lines 193 and 226: the tags that are target tags, in their order. */
  function TagsToRemove(tags: seq<string>, targetTags: seq<string>): (r: seq<string>)
    ensures forall x :: x in r <==> x in tags && x in targetTags
  {
    if tags == [] then []
    else (if tags[0] in targetTags then [tags[0]] else []) + TagsToRemove(tags[1..], targetTags)
  }

  /** Filtering keeps the order: it distributes over concatenation. */
  lemma {:induction false} TagsToRemoveAppend(a: seq<string>, b: seq<string>, targetTags: seq<string>)
    ensures TagsToRemove(a + b, targetTags) == TagsToRemove(a, targetTags) + TagsToRemove(b, targetTags)
  {
    if a == [] {
      assert a + b == b;
    } else {
      assert (a + b)[1..] == a[1..] + b;
      TagsToRemoveAppend(a[1..], b, targetTags);
    }
  }

  /** With the target tags being the keys of TARGETS, the matched tag is
      the first tag removed afterwards. */
  lemma {:induction false} MatchedIsFirstRemoved(tags: seq<string>, targets: seq<(string, string)>)
    ensures var removed := TagsToRemove(tags, KeysOf(targets));
      MatchedTag(tags, targets) == if removed == [] then None else Some(removed[0])
  {
    if tags != [] {
      var keys := KeysOf(targets);
      if tags[0] in keys {
        assert TagsToRemove(tags, keys) == [tags[0]] + TagsToRemove(tags[1..], keys);
      } else {
        assert TagsToRemove(tags, keys) == TagsToRemove(tags[1..], keys);
        assert MatchedTag(tags, targets) == MatchedTag(tags[1..], targets);
        MatchedIsFirstRemoved(tags[1..], targets);
      }
    }
  }

  // ---------------------------------------------------------------------
  // copy_torrent_content
  // ---------------------------------------------------------------------

  /** What the file system looks like when a torrent is handled: the paths
      that exist, and among them the folders and the files. */
  datatype FsView = FsView(present: set<string>, dirs: set<string>, files: set<string>)

  /** The file-system changes of a copy. */
  datatype CopyStep =
    | CopyTree(from: string, to: string)    // line 172
    | MakeDirs(dir: string)                 // line 177
    | CopyFile(from: string, to: string)    // line 178
    | Rename(from: string, to: string)      // lines 173 and 179

  /** The return value of copy_torrent_content: None (a skip), 0 or -1. */
  datatype CopyOutcome = Skip | Copied | CopyFailed

  /** `os.path.dirname(p)`: everything before the last '/', trailing '/'
      removed unless that is all there is. */
  function Dirname(p: string): string {
    match LastIndexOf(p, '/')
    case None => ""
    case Some(i) =>
      var head := p[..i + 1];
      if exists k :: 0 <= k < |head| && head[k] != '/' then TrimEnd(head, {'/'}) else head
  }

  /** The final destination of line 160 and the scratch destination of
      lines 167-168. */
  function FinalDestination(folder: string, t: Torrent): string { PathJoin(folder, t.name) }
  function TempDestination(folder: string, t: Torrent): string { PathJoin(folder, "." + t.name + ".partial") }

  /** Lines 150-187. The source is the torrent's path translated to this
      system with the prefix test `matches` (the program passes PrefixMatch,
      line 141); a failed translation is an exception and so -1, before any
      tag is looked at.
      No matching tag, or a tag that is "", is a skip, as is an existing
      final destination. A folder is copied as a tree and a file after
      creating its parent folder, both to the scratch destination, which
      is then renamed. `copyOk` says whether the copy and the rename went
      through; when not, the exception makes the result -1. */
  function CopyTorrentContent(t: Torrent, s: Settings, mappings: seq<(string, string)>, fs: FsView,
                              copyOk: bool, matches: (string, string) -> bool): (r: (CopyOutcome, seq<CopyStep>))
  {
    CopyInto(Translated(PathJoin(t.savePath, t.name), mappings, s.translate, matches),
             TargetFolder(t, s), t, fs, copyOk)
  }

  /** The destination folder TARGETS gives the torrent's matched tag. */
  function TargetFolder(t: Torrent, s: Settings): Option<string> {
    match MatchedTag(TagList(t), s.targets)
    case None => None
    case Some(tag) => if tag == "" then None else Lookup(s.targets, tag)
  }

  /** The copy once the source has been translated and the destination
      folder looked up. */
  function CopyInto(source: Result<string, TranslateError>, folder: Option<string>, t: Torrent,
                    fs: FsView, copyOk: bool): (CopyOutcome, seq<CopyStep>)
  {
    match source
    case Err(_) => (CopyFailed, [])
    case Ok(src) =>
      match folder
      case None => (Skip, [])
      case Some(f) =>
        var final, temp := FinalDestination(f, t), TempDestination(f, t);
        if final in fs.present then (Skip, [])
        else if src in fs.dirs then
          if copyOk then (Copied, [CopyTree(src, temp), Rename(temp, final)])
          else (CopyFailed, [CopyTree(src, temp)])
        else if src in fs.files then
          if copyOk then (Copied, [MakeDirs(Dirname(temp)), CopyFile(src, temp), Rename(temp, final)])
          else (CopyFailed, [MakeDirs(Dirname(temp)), CopyFile(src, temp)])
        else (CopyFailed, [])
  }

  /** The copy writes only to the scratch destination and renames only
      onto the final destination, which did not exist; the copy succeeds
      exactly when the source translates to an existing folder or file, a
      non-empty tag matches and the final destination is free. */
  lemma CopySpec(t: Torrent, s: Settings, mappings: seq<(string, string)>, fs: FsView, copyOk: bool,
                 matches: (string, string) -> bool)
    ensures var (outcome, steps) := CopyTorrentContent(t, s, mappings, fs, copyOk, matches);
      var source := Translated(PathJoin(t.savePath, t.name), mappings, s.translate, matches);
      var folder := TargetFolder(t, s);
      && (steps != [] ==> source.Ok? && folder.Some? && FinalDestination(folder.value, t) !in fs.present)
      && (forall i :: 0 <= i < |steps| ==> match steps[i]
            case CopyTree(_, to) => to == TempDestination(folder.value, t)
            case CopyFile(_, to) => to == TempDestination(folder.value, t)
            case Rename(from, to) => from == TempDestination(folder.value, t)
                                     && to == FinalDestination(folder.value, t)
            case MakeDirs(_) => true)
      && (outcome == Copied <==>
            && source.Ok? && folder.Some? && FinalDestination(folder.value, t) !in fs.present
            && (source.value in fs.dirs || source.value in fs.files) && copyOk)
      && (outcome == Copied ==> steps[|steps| - 1] == Rename(TempDestination(folder.value, t), FinalDestination(folder.value, t)))
  {
    CopyIntoSpec(Translated(PathJoin(t.savePath, t.name), mappings, s.translate, matches),
                 TargetFolder(t, s), t, fs, copyOk);
  }

  lemma CopyIntoSpec(source: Result<string, TranslateError>, folder: Option<string>, t: Torrent,
                     fs: FsView, copyOk: bool)
    ensures var (outcome, steps) := CopyInto(source, folder, t, fs, copyOk);
      && (steps != [] ==> source.Ok? && folder.Some? && FinalDestination(folder.value, t) !in fs.present)
      && (forall i :: 0 <= i < |steps| ==> match steps[i]
            case CopyTree(_, to) => to == TempDestination(folder.value, t)
            case CopyFile(_, to) => to == TempDestination(folder.value, t)
            case Rename(from, to) => from == TempDestination(folder.value, t)
                                     && to == FinalDestination(folder.value, t)
            case MakeDirs(_) => true)
      && (outcome == Copied <==>
            && source.Ok? && folder.Some? && FinalDestination(folder.value, t) !in fs.present
            && (source.value in fs.dirs || source.value in fs.files) && copyOk)
      && (outcome == Copied ==> steps[|steps| - 1] == Rename(TempDestination(folder.value, t), FinalDestination(folder.value, t)))
  {
  }

  /** An existing final destination is never written: the copy is skipped
      and nothing is changed. */
  lemma NeverOverwrites(t: Torrent, s: Settings, mappings: seq<(string, string)>, fs: FsView, copyOk: bool,
                        matches: (string, string) -> bool)
    requires var folder := TargetFolder(t, s);
      folder.Some? && FinalDestination(folder.value, t) in fs.present
    ensures var (outcome, steps) := CopyTorrentContent(t, s, mappings, fs, copyOk, matches);
      outcome != Copied && steps == []
  {
    CopySpec(t, s, mappings, fs, copyOk, matches);
  }

  // ---------------------------------------------------------------------
  // Tagging and the main pass
  // ---------------------------------------------------------------------

  /** The requests to the torrent manager. */
  datatype ApiCall =
    | RemoveTags(hashes: string, tags: string)   // lines 196-199 and 229-232
    | AddTags(hashes: string, tag: string)       // lines 209-212 and 242-245

  /** Lines 190-253: remove the tags `removed` from the torrent `hash`,
      when there are any, then add `mark`. */
  function MarkCalls(hash: string, removed: seq<string>, mark: string): (calls: seq<ApiCall>)
    ensures |calls| >= 1 && calls[|calls| - 1] == AddTags(hash, mark)
    ensures |calls| == 2 <==> removed != []
    ensures |calls| == 2 ==> calls[0] == RemoveTags(hash, Join(removed, ","))
    ensures |calls| <= 2
  {
    (if removed != [] then [RemoveTags(hash, Join(removed, ","))] else []) + [AddTags(hash, mark)]
  }

  /** What handling one torrent does. */
  datatype Effect = Fs(step: CopyStep) | Api(call: ApiCall)

  function FsEffects(steps: seq<CopyStep>): (es: seq<Effect>)
    ensures |es| == |steps| && forall i :: 0 <= i < |steps| ==> es[i] == Fs(steps[i])
  {
    seq(|steps|, i requires 0 <= i < |steps| => Fs(steps[i]))
  }

  function ApiEffects(calls: seq<ApiCall>): (es: seq<Effect>)
    ensures |es| == |calls| && forall i :: 0 <= i < |calls| ==> es[i] == Api(calls[i])
  {
    seq(|calls|, i requires 0 <= i < |calls| => Api(calls[i]))
  }

  /** Lines 277-282 for a copy that ended with `copy`: its changes, then
      the marking, done on a 0 and failed otherwise. */
  function Dispatch(hash: string, removed: seq<string>, doneTag: string,
                    copy: (CopyOutcome, seq<CopyStep>)): seq<Effect>
  {
    var mark := if copy.0 == Copied then doneTag else FailedTag;
    FsEffects(copy.1) + ApiEffects(MarkCalls(hash, removed, mark))
  }

  /** The copy's changes come first and the mark last; only a copy that
      returned 0 marks the torrent done, a skip and a -1 both mark it
      failed. */
  lemma MarkFollowsOutcome(hash: string, removed: seq<string>, doneTag: string,
                           copy: (CopyOutcome, seq<CopyStep>))
    ensures var es := Dispatch(hash, removed, doneTag, copy);
      && |es| > |copy.1|
      && es[..|copy.1|] == FsEffects(copy.1)
      && es[|es| - 1] == Api(AddTags(hash, if copy.0 == Copied then doneTag else FailedTag))
  {
    var mark := if copy.0 == Copied then doneTag else FailedTag;
    var es := Dispatch(hash, removed, doneTag, copy);
    assert es == FsEffects(copy.1) + ApiEffects(MarkCalls(hash, removed, mark));
    assert |es| > |copy.1| && es[..|copy.1|] == FsEffects(copy.1) by {
      MarkedLast(copy.1, MarkCalls(hash, removed, mark));
    }
    assert es[|es| - 1] == Api(AddTags(hash, mark)) by {
      MarkedLast(copy.1, MarkCalls(hash, removed, mark));
    }
  }

  /** The file-system effects of `steps` followed by the calls `calls`. */
  lemma MarkedLast(steps: seq<CopyStep>, calls: seq<ApiCall>)
    requires calls != []
    ensures var es := FsEffects(steps) + ApiEffects(calls);
      |es| > |steps| && es[..|steps|] == FsEffects(steps) && es[|es| - 1] == Api(calls[|calls| - 1])
  {
    var es := FsEffects(steps) + ApiEffects(calls);
    assert es[..|steps|] == FsEffects(steps);
    assert es[|es| - 1] == ApiEffects(calls)[|calls| - 1];
  }

  /** With a done tag other than the failed one, the torrent is tagged done
      exactly when its copy returned 0. */
  lemma DoneIffCopied(hash: string, removed: seq<string>, doneTag: string,
                      copy: (CopyOutcome, seq<CopyStep>))
    requires doneTag != FailedTag
    ensures Api(AddTags(hash, doneTag)) in Dispatch(hash, removed, doneTag, copy) <==> copy.0 == Copied
  {
    var mark := if copy.0 == Copied then doneTag else FailedTag;
    var fs, api := FsEffects(copy.1), ApiEffects(MarkCalls(hash, removed, mark));
    assert Dispatch(hash, removed, doneTag, copy) == fs + api;
    assert Api(AddTags(hash, doneTag)) !in fs;
    AddedTagIsMark(hash, removed, mark, doneTag);
  }

  /** The only tag the marking adds is the mark. */
  lemma AddedTagIsMark(hash: string, removed: seq<string>, mark: string, tag: string)
    ensures Api(AddTags(hash, tag)) in ApiEffects(MarkCalls(hash, removed, mark)) <==> tag == mark
  {
    var calls := MarkCalls(hash, removed, mark);
    var api := ApiEffects(calls);
    assert api[|api| - 1] == Api(AddTags(hash, mark));
    if Api(AddTags(hash, tag)) in api {
      var i :| 0 <= i < |api| && api[i] == Api(AddTags(hash, tag));
      assert calls[i] == AddTags(hash, tag);
    }
  }

  /** One torrent: copy, then mark. */
  function HandleTorrent(t: Torrent, s: Settings, mappings: seq<(string, string)>, fs: FsView,
                         copyOk: bool, matches: (string, string) -> bool): seq<Effect>
  {
    Dispatch(t.hash, TagsToRemove(TagList(t), KeysOf(s.targets)), s.doneTag,
             CopyTorrentContent(t, s, mappings, fs, copyOk, matches))
  }

  /** One pass of the main loop (lines 269-282): load the mappings when
      translating, collect the torrents, and handle each in turn, each
      translation using the prefix test of line 141. `fsAt[i]` and
      `copyOkAt[i]` describe the file system when the i-th torrent is
      handled. With translation on and the mapping-file variable unset,
      loading raises (line 52), and the loop's handler (line 284) ends the
      pass before any torrent is handled. */
  method PollOnce(s: Settings, mappingFile: MappingFile, answers: seq<Option<seq<Torrent>>>,
                  fsAt: seq<FsView>, copyOkAt: seq<bool>)
    returns (effects: seq<Effect>)
    requires (forall i :: 0 <= i < |answers| ==> answers[i].Some?) ==>
      |fsAt| == |copyOkAt| == |DedupByHash(Concat(answers))|
    ensures s.translate && mappingFile.Unset? ==> effects == []
    ensures !(s.translate && mappingFile.Unset?) ==>
      var mappings := if s.translate && mappingFile.Present? then FromPairs(ParsedPairs(mappingFile.lines)) else [];
      var torrents := if forall i :: 0 <= i < |answers| ==> answers[i].Some? then DedupByHash(Concat(answers)) else [];
      effects == HandleAll(torrents, s, mappings, fsAt, copyOkAt, PrefixMatch)
  {
    var mappings: seq<(string, string)> := [];
    if s.translate {
      var loaded := LoadPathMappings(mappingFile);
      if loaded.None? {
        return [];
      }
      mappings := loaded.value;
    }
    var torrents := GetCompletedTorrents(answers);
    effects := HandleTorrents(torrents, s, mappings, fsAt, copyOkAt, PrefixMatch);
  }

  /** Lines 276-282: each torrent in turn. */
  method HandleTorrents(torrents: seq<Torrent>, s: Settings, mappings: seq<(string, string)>,
                        fsAt: seq<FsView>, copyOkAt: seq<bool>, matches: (string, string) -> bool)
    returns (effects: seq<Effect>)
    requires |torrents| <= |fsAt| && |torrents| <= |copyOkAt|
    ensures effects == HandleAll(torrents, s, mappings, fsAt, copyOkAt, matches)
  {
    effects := [];
    for i := 0 to |torrents|
      invariant effects == HandleAll(torrents[..i], s, mappings, fsAt, copyOkAt, matches)
    {
      HandleAllStep(torrents, i, s, mappings, fsAt, copyOkAt, matches);
      effects := effects + HandleTorrent(torrents[i], s, mappings, fsAt[i], copyOkAt[i], matches);
    }
    assert torrents[..|torrents|] == torrents;
  }

  /** The effects of handling the torrents in order. */
  function HandleAll(torrents: seq<Torrent>, s: Settings, mappings: seq<(string, string)>,
                     fsAt: seq<FsView>, copyOkAt: seq<bool>, matches: (string, string) -> bool): seq<Effect>
    requires |torrents| <= |fsAt| && |torrents| <= |copyOkAt|
  {
    if torrents == [] then []
    else
      var n := |torrents| - 1;
      HandleAll(torrents[..n], s, mappings, fsAt, copyOkAt, matches)
        + HandleTorrent(torrents[n], s, mappings, fsAt[n], copyOkAt[n], matches)
  }

  lemma HandleAllStep(torrents: seq<Torrent>, i: nat, s: Settings, mappings: seq<(string, string)>,
                      fsAt: seq<FsView>, copyOkAt: seq<bool>, matches: (string, string) -> bool)
    requires i < |torrents| <= |fsAt| && |torrents| <= |copyOkAt|
    ensures HandleAll(torrents[..i + 1], s, mappings, fsAt, copyOkAt, matches)
      == HandleAll(torrents[..i], s, mappings, fsAt, copyOkAt, matches)
         + HandleTorrent(torrents[i], s, mappings, fsAt[i], copyOkAt[i], matches)
  {
    var xs := torrents[..i + 1];
    assert |xs| - 1 == i && xs[..i] == torrents[..i] && xs[i] == torrents[i];
    assert HandleAll(xs, s, mappings, fsAt, copyOkAt, matches)
        == HandleAll(xs[..i], s, mappings, fsAt, copyOkAt, matches)
           + HandleTorrent(xs[i], s, mappings, fsAt[i], copyOkAt[i], matches);
  }
}
