/**
 Topic names and filters: the character-by-character code against the meaning of filters as lists
 of levels (sections 4.7.1 and 4.7.2 of MQTT 3.1.1).
 */
module Topics {
  import opened Mqtt

  // ---- Levels --------------------------------------------------------------------------------------

  /** The levels of a topic or filter: the parts between slashes, empty ones included. */
  function Levels(s: seq<byte>): (ls: seq<seq<byte>>)
    ensures ls != []
  {
    if s == [] then [[]]
    else
      var rest := Levels(s[1..]);
      if s[0] == SLASH then [[]] + rest else [[s[0]] + rest[0]] + rest[1..]
  }

  function Join(ls: seq<seq<byte>>): seq<byte>
    requires ls != []
  {
    if |ls| == 1 then ls[0] else ls[0] + [SLASH] + Join(ls[1..])
  }

  /** Splitting loses nothing. */
  lemma {:induction false} JoinLevels(s: seq<byte>)
    ensures Join(Levels(s)) == s
  {
    if s != [] {
      JoinLevels(s[1..]);
      var rest := Levels(s[1..]);
      assert Levels(s) == if s[0] == SLASH then [[]] + rest else [[s[0]] + rest[0]] + rest[1..];
      hide Levels;
      if s[0] == SLASH {
        var ls := [[]] + rest;
        assert Levels(s) == ls && ls[1..] == rest;
        assert Join(ls) == [] + [SLASH] + Join(rest) == s;
      } else {
        var ls := [[s[0]] + rest[0]] + rest[1..];
        assert Levels(s) == ls && ls[1..] == rest[1..];
        if |rest| > 1 {
          assert ls[0] + [SLASH] + Join(rest[1..]) == [s[0]] + (rest[0] + [SLASH] + Join(rest[1..]));
        }
        assert Join(ls) == [s[0]] + Join(rest) == s;
      }
    }
  }

  /** The first level ends at the first slash. */
  lemma {:induction false} FirstLevel(s: seq<byte>, k: nat)
    requires k <= |s| && SLASH !in s[..k] && (k < |s| ==> s[k] == SLASH)
    ensures Levels(s) == if k < |s| then [s[..k]] + Levels(s[k + 1..]) else [s]
  {
    if k > 0 {
      var rest := Levels(s[1..]);
      assert Levels(s) == if s[0] == SLASH then [[]] + rest else [[s[0]] + rest[0]] + rest[1..];
      hide Levels;
      assert s[0] in s[..k] && s[1..][..k - 1] == s[..k][1..];
      FirstLevel(s[1..], k - 1);
      assert s[..k] == [s[0]] + s[1..][..k - 1];
      if k < |s| {
        assert s[1..][k..] == s[k + 1..];
        assert rest[1..] == Levels(s[k + 1..]);
      } else {
        assert rest[1..] == [] && [s[0]] + s[1..] == s;
      }
    } else if s != [] {
      assert [[]] + Levels(s[1..]) == [s[..0]] + Levels(s[1..]);
    }
  }

  /** What the tokeniser stores for a level: a null pointer for an empty one. */
  function Token(level: seq<byte>): Option<seq<byte>> {
    if level == [] then None else Some(level)
  }

  predicate AreTokens(tokens: seq<Option<seq<byte>>>, ls: seq<seq<byte>>) {
    |tokens| == |ls| && forall i :: 0 <= i < |ls| ==> tokens[i] == Token(ls[i])
  }

  /** The text of each token; a null pointer stands for an empty one. */
  function Texts(tokens: seq<Option<seq<byte>>>): (ls: seq<seq<byte>>)
    ensures |ls| == |tokens| && forall i :: 0 <= i < |ls| ==> ls[i] == if tokens[i].Some? then tokens[i].value else []
  {
    seq(|tokens|, i requires 0 <= i < |tokens| => if tokens[i].Some? then tokens[i].value else [])
  }

  /** The tokens are the non-empty parts of the text between slashes, and joined give the text back. */
  predicate Tokenised(tokens: seq<Option<seq<byte>>>, text: seq<byte>) {
    && tokens != [] && Join(Texts(tokens)) == text
    && forall i :: 0 <= i < |tokens| && tokens[i].Some? ==> tokens[i].value != [] && SLASH !in tokens[i].value
  }

  lemma {:induction false} NoSlashes(s: seq<byte>)
    ensures forall i :: 0 <= i < |Levels(s)| ==> SLASH !in Levels(s)[i]
  {
    if s != [] {
      NoSlashes(s[1..]);
      var rest := Levels(s[1..]);
      assert rest != [] && Levels(s) == if s[0] == SLASH then [[]] + rest else [[s[0]] + rest[0]] + rest[1..];
      hide Levels;
    }
  }

  lemma TokensAre(tokens: seq<Option<seq<byte>>>, text: seq<byte>)
    requires AreTokens(tokens, Levels(text))
    ensures Tokenised(tokens, text)
  {
    JoinLevels(text);
    NoSlashes(text);
    hide Levels, Join;
    assert Texts(tokens) == Levels(text);
  }

  lemma CutLevel(s: seq<byte>, start: nat, stop: nat)
    requires start <= stop <= |s| && SLASH !in s[start..stop] && (stop < |s| ==> s[stop] == SLASH)
    ensures Levels(s[start..]) == if stop < |s| then [s[start..stop]] + Levels(s[stop + 1..]) else [s[start..stop]]
  {
    assert s[start..][..stop - start] == s[start..stop];
    FirstLevel(s[start..], stop - start);
    if stop < |s| {
      assert s[start..][stop - start + 1..] == s[stop + 1..];
    } else {
      assert s[start..] == s[start..stop];
    }
  }

  /** `mosquitto_sub_topic_tokenise`: one entry for each level. */
  method Tokenise(subtopic: seq<byte>) returns (topics: seq<Option<seq<byte>>>, count: nat)
    ensures AreTokens(topics, Levels(subtopic)) && count == |topics|
    ensures Tokenised(topics, subtopic)
  {
    hide Levels;
    ghost var ls := Levels(subtopic);
    var len := |subtopic|;
    var hierCount := CountLevels(subtopic);
    var table := new Option<seq<byte>>[hierCount](_ => None);
    var start, hier := 0, 0;
    assert subtopic[0..] == subtopic;
    for i := 0 to len + 1
      invariant hier <= hierCount
      invariant i <= len ==> start <= i && SLASH !in subtopic[start..i] && Levels(subtopic[start..]) == ls[hier..]
      invariant i == len + 1 ==> hier == hierCount
      invariant forall k :: 0 <= k < hier ==> table[k] == Token(ls[k])
      invariant forall k :: hier <= k < hierCount ==> table[k] == None
    {
      if i == len || subtopic[i] == SLASH {
        var stop := i;
        CutLevel(subtopic, start, stop);
        assert ls[hier..][0] == subtopic[start..stop] && ls[hier..][1..] == ls[hier + 1..];
        if start != stop {
          table[hier] := Some(subtopic[start..stop]);
        }
        start := i + 1;
        hier := hier + 1;
      } else {
        assert subtopic[start..i + 1] == subtopic[start..i] + [subtopic[i]];
      }
    }
    topics, count := table[..], hierCount;
    TokensAre(topics, subtopic);
  }

  /** The first loop of the tokeniser: one more than the number of slashes. */
  method CountLevels(subtopic: seq<byte>) returns (hierCount: nat)
    ensures hierCount == |Levels(subtopic)|
  {
    hierCount := 1;
    for i := 0 to |subtopic|
      invariant hierCount >= 1 && hierCount + |Levels(subtopic[i..])| == |Levels(subtopic)| + 1
    {
      assert subtopic[i..][1..] == subtopic[i + 1..];
      if subtopic[i] == SLASH {
        hierCount := hierCount + 1;
      }
    }
    assert subtopic[|subtopic|..] == [];
  }

  // ---- Valid topics and filters ----------------------------------------------------------------------

  predicate Literal(s: seq<byte>) {
    PLUS !in s && HASH !in s
  }

  predicate ValidTopic(topic: seq<byte>) {
    |topic| <= MAX_FIELD && Literal(topic)
  }

  /** `mosquitto_pub_topic_check` on a C string. */
  method PubTopicCheck(str: seq<byte>) returns (rc: Rc)
    ensures rc == if ValidTopic(str) then Success else Inval
  {
    var len := 0;
    while len < |str|
      invariant len <= |str| && Literal(str[..len])
    {
      if str[len] == PLUS || str[len] == HASH {
        return Inval;
      }
      assert str[..len + 1] == str[..len] + [str[len]];
      len := len + 1;
    }
    assert str[..len] == str;
    if len > 65535 {
      return Inval;
    }
    return Success;
  }

  /** A single `+`, a final `#`, or a name without wildcards. */
  predicate LevelOk(level: seq<byte>, last: bool) {
    level == [PLUS] || (last && level == [HASH]) || Literal(level)
  }

  predicate LevelsOk(ls: seq<seq<byte>>) {
    forall i :: 0 <= i < |ls| ==> LevelOk(ls[i], i == |ls| - 1)
  }

  predicate ValidFilter(filter: seq<byte>) {
    |filter| <= MAX_FIELD && LevelsOk(Levels(filter))
  }

  /** The character test of `mosquitto_sub_topic_check`; `start` says that a level begins here. */
  predicate Check(s: seq<byte>, start: bool) {
    if s == [] then true
    else if s[0] == PLUS then start && (|s| == 1 || s[1] == SLASH) && Check(s[1..], false)
    else if s[0] == HASH then start && |s| == 1
    else Check(s[1..], s[0] == SLASH)
  }

  lemma LevelsOkCons(level: seq<byte>, ls: seq<seq<byte>>)
    ensures LevelsOk([level] + ls) <==> LevelOk(level, ls == []) && LevelsOk(ls)
  {
    var all := [level] + ls;
    if LevelsOk(all) {
      assert LevelOk(all[0], 0 == |all| - 1);
      forall i | 0 <= i < |ls| ensures LevelOk(ls[i], i == |ls| - 1) {
        assert LevelOk(all[i + 1], i + 1 == |all| - 1);
      }
    }
    if LevelOk(level, ls == []) && LevelsOk(ls) {
      forall i | 0 <= i < |all| ensures LevelOk(all[i], i == |all| - 1) {
        assert i > 0 ==> LevelOk(ls[i - 1], i - 1 == |ls| - 1);
      }
    }
  }

  /** The character test agrees with the level-wise one, at the start of a level and within one. */
  lemma {:induction false} CheckMeansLevelsOk(s: seq<byte>, start: bool)
    ensures var ls := Levels(s);
            Check(s, start) <==> if start then LevelsOk(ls) else Literal(ls[0]) && LevelsOk(ls[1..])
  {
    if s != [] {
      var rest := Levels(s[1..]);
      CheckMeansLevelsOk(s[1..], s[0] == SLASH);
      if s[0] == SLASH {
        LevelsOkCons([], rest);
        assert Levels(s)[1..] == rest;
      } else {
        LevelsOkCons([s[0]] + rest[0], rest[1..]);
        assert Levels(s)[1..] == rest[1..];
        assert [PLUS] + [] == [PLUS] && [HASH] + [] == [HASH];
        assert s[0] in [s[0]] + rest[0] && forall b :: b in rest[0] ==> b in [s[0]] + rest[0];
        FirstOfTail(s);
      }
    }
  }

  /** Whether a level is over after one character. */
  lemma FirstOfTail(s: seq<byte>)
    requires s != []
    ensures Levels(s[1..])[0] == [] <==> |s| == 1 || s[1] == SLASH
    ensures |Levels(s[1..])| == 1 && Levels(s[1..])[0] == [] <==> |s| == 1
  {
  }

  /** `mosquitto_sub_topic_check` on a C string accepts exactly the valid filters. */
  method SubTopicCheck(str: seq<byte>) returns (rc: Rc)
    requires 0 !in str
    ensures rc == if ValidFilter(str) then Success else Inval
  {
    CheckMeansLevelsOk(str, true);
    var c: byte := 0;
    var len := 0;
    while len < |str|
      invariant len <= |str| && (c == 0 <==> len == 0)
      invariant Check(str, true) <==> Check(str[len..], c == 0 || c == SLASH)
    {
      assert str[len..][1..] == str[len + 1..] && str[len] in str;
      if str[len] == PLUS {
        if (c != 0 && c != SLASH) || (len + 1 < |str| && str[len + 1] != SLASH) {
          return Inval;
        }
      } else if str[len] == HASH {
        if (c != 0 && c != SLASH) || len + 1 < |str| {
          return Inval;
        }
      }
      c := str[len];
      len := len + 1;
    }
    if len > 65535 {
      return Inval;
    }
    return Success;
  }

  // ---- Matching ----------------------------------------------------------------------------------------

  /** Level lists: `+` stands for one level, `#` for any number of them, none included. */
  predicate LevelMatch(fs: seq<seq<byte>>, ts: seq<seq<byte>>) {
    if fs == [] then ts == []
    else if fs[0] == [HASH] then |fs| == 1
    else ts != [] && (fs[0] == [PLUS] || fs[0] == ts[0]) && LevelMatch(fs[1..], ts[1..])
  }

  /** What the standard says: wildcards do not match a topic that starts with `$` in the first level. */
  predicate SpecMatch(filter: seq<byte>, topic: seq<byte>)
    requires filter != [] && topic != []
  {
    !(topic[0] == DOLLAR && (filter[0] == PLUS || filter[0] == HASH)) && LevelMatch(Levels(filter), Levels(topic))
  }

  /**
   Where the code differs from the standard: it says no when the filter ends in `#` and either the topic
   has as many levels and ends in an empty one, or it has one level fewer and `+` stands before the `#`.
   */
  predicate Missed(fs: seq<seq<byte>>, ts: seq<seq<byte>>) {
    fs != [] && fs[|fs| - 1] == [HASH]
    && ((|ts| == |fs| && ts[|ts| - 1] == []) || (|ts| + 1 == |fs| && |fs| >= 2 && fs[|fs| - 2] == [PLUS]))
  }

  function SkipLevel(t: seq<byte>): (r: seq<byte>)
    ensures |r| <= |t|
  {
    if t == [] || t[0] == SLASH then t else SkipLevel(t[1..])
  }

  /** The loop of `mosquitto_topic_matches_sub` from the given rests of filter and topic. */
  predicate CharMatch(s: seq<byte>, t: seq<byte>)
    decreases |s|
  {
    if s == [] || t == [] then false
    else if s[0] == t[0] then
      (|t| == 1 && (|s| == 1 || s[1..] == [PLUS] || s[1..] == [SLASH, HASH])) || CharMatch(s[1..], t[1..])
    else if s[0] == PLUS then
      (|s| == 1 && SkipLevel(t) == []) || CharMatch(s[1..], SkipLevel(t))
    else s[0] == HASH && |s| == 1
  }

  /** `mosquitto_topic_matches_sub` as a function: the answer, or none for two empty strings. */
  function CodeMatch(sub: seq<byte>, topic: seq<byte>): Option<bool> {
    if sub == [] && topic == [] then None
    else if sub != [] && topic != [] && (sub[0] == DOLLAR) != (topic[0] == DOLLAR) then Some(false)
    else Some(CharMatch(sub, topic))
  }

  /** `mosquitto_topic_matches_sub`. It ends for every input, and answers unless both strings are empty. */
  method TopicMatchesSub(sub: seq<byte>, topic: seq<byte>) returns (result: Option<bool>)
    ensures result == CodeMatch(sub, topic)
  {
    result := None;
    var slen, tlen := |sub|, |topic|;
    if slen > 0 && tlen > 0 {
      if (sub[0] == DOLLAR && topic[0] != DOLLAR) || (topic[0] == DOLLAR && sub[0] != DOLLAR) {
        return Some(false);
      }
    }
    var spos, tpos := 0, 0;
    while spos < slen && tpos < tlen
      invariant spos <= slen && tpos <= tlen
      invariant CharMatch(sub, topic) == CharMatch(sub[spos..], topic[tpos..])
      invariant spos == slen && tpos == tlen ==> sub == [] && topic == []
      decreases slen - spos
    {
      assert sub[spos..][1..] == sub[spos + 1..] && topic[tpos..][1..] == topic[tpos + 1..];
      if sub[spos] == topic[tpos] {
        if tpos == tlen - 1 {
          if spos == slen - 3 && sub[spos + 1] == SLASH && sub[spos + 2] == HASH {
            assert sub[spos + 1..] == [SLASH, HASH];
            return Some(true);
          }
        }
        spos := spos + 1;
        tpos := tpos + 1;
        if spos == slen && tpos == tlen {
          return Some(true);
        } else if tpos == tlen && spos == slen - 1 && sub[spos] == PLUS {
          assert sub[spos..] == [PLUS];
          spos := spos + 1;
          return Some(true);
        }
      } else {
        if sub[spos] == PLUS {
          spos := spos + 1;
          ghost var t := topic[tpos..];
          while tpos < tlen && topic[tpos] != SLASH
            invariant tpos <= tlen && SkipLevel(t) == SkipLevel(topic[tpos..])
          {
            assert topic[tpos..][1..] == topic[tpos + 1..];
            tpos := tpos + 1;
          }
          if tpos == tlen && spos == slen {
            return Some(true);
          }
        } else if sub[spos] == HASH {
          return Some(spos + 1 == slen);
        } else {
          return Some(false);
        }
      }
    }
    if tpos < tlen || spos < slen {
      result := Some(false);
    }
  }

  // ---- Agreement -----------------------------------------------------------------------------------------

  /** The answer the code should give on level lists. */
  predicate Expected(fs: seq<seq<byte>>, ts: seq<seq<byte>>) {
    LevelMatch(fs, ts) && !Missed(fs, ts)
  }

  /** `CharMatch` carried on to the point where the topic is used up. */
  predicate Answer(s: seq<byte>, t: seq<byte>) {
    if t == [] then s == [] || s == [PLUS] || s == [SLASH, HASH] else CharMatch(s, t)
  }

  /** Equal first levels, the first of them not a wildcard, do not matter to the rest. */
  lemma ExpectedCons(f: seq<byte>, g: seq<byte>, fs: seq<seq<byte>>, ts: seq<seq<byte>>)
    requires f != [HASH] && fs != [] && ts != []
    ensures Expected([f] + fs, [g] + ts) <==> (f == [PLUS] || f == g) && Expected(fs, ts)
  {
  }

  /** With the topic used up, the standard asks for the same few filters. */
  lemma AnswerAtEnd(s: seq<byte>, start: bool)
    requires Check(s, start)
    ensures Answer(s, []) <==> Expected(Levels(s), [[]])
  {
    var fs := Levels(s);
    var ts: seq<seq<byte>> := [[]];
    assert ts[1..] == [];
    CheckMeansLevelsOk(s, start);
    if s == [] {
      assert LevelMatch(fs[1..], ts[1..]);
    } else if s[0] == SLASH {
      var rest := Levels(s[1..]);
      assert fs[1..] == rest;
      HashAlone(s[1..]);
    } else if s[0] == PLUS && |s| > 1 {
      assert s[1] == SLASH;
      var rest := Levels(s[2..]);
      assert s[1..][1..] == s[2..] && Levels(s[1..]) == [[]] + rest;
      assert [PLUS] + [] == [PLUS] && fs == [[PLUS]] + rest;
      assert fs[1..] == rest;
      HashAlone(s[2..]);
    } else {
      assert fs[0][0] == s[0];
    }
  }

  /** The only list of levels that matches no level at all. */
  lemma HashAlone(s: seq<byte>)
    ensures LevelMatch(Levels(s), []) <==> s == [HASH]
  {
  }

  lemma {:induction false} SkipLevelIs(t: seq<byte>)
    requires Literal(t) && t != []
    ensures var r := SkipLevel(t);
            && (r != [] ==> r[0] == SLASH) && Literal(r)
            && exists g :: Levels(t) == if r == [] then [g] else [g] + Levels(r[1..])
  {
    var k := 0;
    SkipLevelAt(t);
    k := |t| - |SkipLevel(t)|;
    FirstLevel(t, k);
    assert t[..k] == t[..k];
    assert SkipLevel(t) == t[k..];
    assert k < |t| ==> SkipLevel(t)[1..] == t[k + 1..];
    assert k == |t| ==> t[..k] == t;
    assert Levels(t) == if SkipLevel(t) == [] then [t[..k]] else [t[..k]] + Levels(SkipLevel(t)[1..]);
    assert forall b :: b in t[k..] ==> b in t;
  }

  lemma {:induction false} SkipLevelAt(t: seq<byte>)
    ensures var k := |t| - |SkipLevel(t)|;
            SkipLevel(t) == t[k..] && SLASH !in t[..k] && (k < |t| ==> t[k] == SLASH)
  {
    if t != [] && t[0] != SLASH {
      SkipLevelAt(t[1..]);
      var k := |t| - |SkipLevel(t)|;
      assert t[..k] == [t[0]] + t[1..][..k - 1];
    }
  }

  /** The character loop gives the expected answer, from the start of a level and from within one. */
  lemma {:induction false} AnswerIsExpected(s: seq<byte>, t: seq<byte>, start: bool)
    requires Check(s, start) && Literal(t)
    ensures Answer(s, t) <==> Expected(Levels(s), Levels(t))
    decreases |s|
  {
    if t == [] {
      AnswerAtEnd(s, start);
    } else if s == [] {
      assert Levels(t) != [[]] by {
        JoinLevels(t);
        var e: seq<seq<byte>> := [[]];
        assert Join(e) == [];
      }
      assert LevelMatch(Levels(s)[1..], Levels(t)[1..]) <==> |Levels(t)| == 1;
    } else if s[0] == t[0] {
      SameChar(s, t, start);
    } else if s[0] == PLUS {
      PlusLevel(s, t);
    } else {
      OtherChar(s, t, start);
    }
  }

  lemma {:induction false} SameChar(s: seq<byte>, t: seq<byte>, start: bool)
    requires Check(s, start) && Literal(t) && s != [] && t != [] && s[0] == t[0]
    ensures Answer(s, t) <==> Expected(Levels(s), Levels(t))
    decreases |s|, 0
  {
    var s1, t1 := s[1..], t[1..];
    assert t[0] in t && forall b :: b in t1 ==> b in t;
    AnswerIsExpected(s1, t1, s[0] == SLASH);
    var fs, ts := Levels(s1), Levels(t1);
    if t1 == [] {
      assert |s| == 1 <==> s1 == [];
      assert !CharMatch(s1, t1);
    } else {
      assert |t| != 1;
    }
    assert Answer(s, t) <==> Answer(s1, t1);
    if s[0] == SLASH {
      ExpectedCons([], [], fs, ts);
    } else {
      CheckMeansLevelsOk(s1, false);
      ExtendFirst(s[0], fs, ts);
    }
  }

  /** A character put in front of both first levels changes nothing, if the filter's is a plain name. */
  lemma ExtendFirst(c: byte, fs: seq<seq<byte>>, ts: seq<seq<byte>>)
    requires fs != [] && ts != [] && Literal(fs[0]) && c != PLUS && c != HASH
    ensures Expected([[c] + fs[0]] + fs[1..], [[c] + ts[0]] + ts[1..]) <==> Expected(fs, ts)
  {
    var fa, ta := [[c] + fs[0]] + fs[1..], [[c] + ts[0]] + ts[1..];
    assert fa[1..] == fs[1..] && ta[1..] == ts[1..];
    assert ([c] + fs[0])[0] == c && ([c] + fs[0])[1..] == fs[0] && ([c] + ts[0])[1..] == ts[0];
    assert [PLUS][0] == PLUS && [HASH][0] == HASH;
    assert PLUS in [PLUS] && HASH in [HASH];
  }

  lemma {:induction false} PlusLevel(s: seq<byte>, t: seq<byte>)
    requires Check(s, true) && Literal(t) && s != [] && t != [] && s[0] == PLUS
    ensures Answer(s, t) <==> Expected(Levels(s), Levels(t))
    decreases |s|, 0
  {
    var r := SkipLevel(t);
    SkipLevelIs(t);
    var g :| Levels(t) == if r == [] then [g] else [g] + Levels(r[1..]);
    assert t[0] in t && [PLUS] + [] == [PLUS];
    if |s| == 1 {
      assert s[1..] == [] && Levels(s) == [[PLUS]];
      assert Levels(s)[1..] == [] && Levels(t)[1..] == if r == [] then [] else Levels(r[1..]);
      assert !CharMatch(s[1..], r);
      assert [PLUS][0] != [HASH][0];
      assert LevelMatch(Levels(s), Levels(t)) <==> LevelMatch([], Levels(t)[1..]);
      assert !Missed(Levels(s), Levels(t));
      assert Answer(s, t) <==> r == [];
    } else {
      var s2 := s[2..];
      assert s[1..][1..] == s2 && Levels(s[1..]) == [[]] + Levels(s2) && Levels(s) == [[PLUS]] + Levels(s2);
      if r == [] {
        assert Levels(s)[1..] == Levels(s2) && Levels(t)[1..] == [];
        HashAlone(s2);
        assert !CharMatch(s[1..], r);
        assert [HASH] + [] == [HASH] && (s2 == [HASH] ==> Levels(s2) == [[HASH]]);
      } else {
        AnswerIsExpected(s2, r[1..], true);
        ExpectedCons([PLUS], g, Levels(s2), Levels(r[1..]));
        assert s[1..][0] == SLASH && (|s[1..]| == 1 <==> s2 == []);
        assert Answer(s, t) <==> CharMatch(s[1..], r);
        assert CharMatch(s[1..], r)
               <==> (|r| == 1 && (s2 == [] || s2 == [PLUS] || s2 == [SLASH, HASH])) || CharMatch(s2, r[1..]);
        assert Answer(s, t) <==> Answer(s2, r[1..]);
      }
    }
  }

  lemma OtherChar(s: seq<byte>, t: seq<byte>, start: bool)
    requires Check(s, start) && Literal(t) && s != [] && t != [] && s[0] != t[0] && s[0] != PLUS
    ensures Answer(s, t) <==> Expected(Levels(s), Levels(t))
  {
    var fs, ts := Levels(s), Levels(t);
    JoinLevels(t);
    if s[0] == HASH {
      assert [HASH] + [] == [HASH] && fs == [[HASH]];
    } else {
      assert s[0] != SLASH ==> fs[0][0] == s[0];
      assert t[0] != SLASH ==> ts[0][0] == t[0];
    }
  }

  /** The two ways to be missed: `a/#` does not match `a/`, and `+/#` does not match `a`. */
  lemma MissedExamples()
    ensures var a: byte := 97;
            && SpecMatch([a, SLASH, HASH], [a, SLASH]) && CodeMatch([a, SLASH, HASH], [a, SLASH]) == Some(false)
            && SpecMatch([PLUS, SLASH, HASH], [a]) && CodeMatch([PLUS, SLASH, HASH], [a]) == Some(false)
  {
    var a: byte := 97;
    var levelsOfHash: seq<seq<byte>> := [[HASH]];
    assert Levels([HASH]) == levelsOfHash by { FirstLevel([HASH], 1); }
    FirstLevel([a, SLASH, HASH], 1);
    FirstLevel([PLUS, SLASH, HASH], 1);
    FirstLevel([a, SLASH], 1);
    FirstLevel([a], 1);
    FirstLevel([], 0);
    assert levelsOfHash[1..] == [];
    assert ([[a]] + levelsOfHash)[1..] == levelsOfHash && ([[PLUS]] + levelsOfHash)[1..] == levelsOfHash;
    assert [PLUS][0] != [HASH][0] && [a][0] != [HASH][0];
    var f, g, t := [a, SLASH, HASH], [PLUS, SLASH, HASH], [a, SLASH];
    assert f[1..] == g[1..] == [SLASH, HASH] && [SLASH, HASH][1..] == [HASH] && t[1..] == [SLASH];
    assert !CharMatch([SLASH, HASH], [SLASH]) && !CharMatch(f, t);
    assert SkipLevel([a]) == [] && !CharMatch(g, [a]);
  }

  /**
   For every valid filter and topic that are not empty, the code follows the standard except for
   exactly the filters and topics of `Missed`, to which it answers no.
   */
  lemma MatchMeansLevels(filter: seq<byte>, topic: seq<byte>)
    requires filter != [] && topic != [] && ValidFilter(filter) && ValidTopic(topic)
    ensures CodeMatch(filter, topic) == Some(SpecMatch(filter, topic) && !Missed(Levels(filter), Levels(topic)))
  {
    CheckMeansLevelsOk(filter, true);
    AnswerIsExpected(filter, topic, true);
    if (filter[0] == DOLLAR) != (topic[0] == DOLLAR) && filter[0] != PLUS && filter[0] != HASH {
      OtherChar(filter, topic, true);
    }
  }
}
