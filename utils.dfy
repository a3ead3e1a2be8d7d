/** utils.ts: the Fisher-Yates shuffle, the clock format of the exam timer, and the
    ingestion of a parsed JSON file into `Question` records. */
module Utils {
  import opened Wrappers
  import opened Seqs
  import opened JsStrings
  import opened Json
  import opened Types

  // ---------------------------------------------------------------- shuffleArray

  /** The draws one call of `shuffleArray` makes on `Math.random`: for each
      position i of a length-n array, `js[i]` is the value of
      `Math.floor(Math.random() * (i + 1))`, a whole number in 0..i. Position 0 is
      never drawn for; its entry is ignored. */
  predicate SwapsFor(js: seq<int>, n: int) {
    |js| == n && forall i :: 0 <= i < n ==> 0 <= js[i] <= i
  }

  /** The destructuring swap `[a[i], a[j]] = [a[j], a[i]]`. */
  function Swap<T>(s: seq<T>, i: nat, j: nat): (r: seq<T>)
    requires i < |s| && j < |s|
    ensures |r| == |s| && r[i] == s[j] && r[j] == s[i]
    ensures forall k :: 0 <= k < |s| && k != i && k != j ==> r[k] == s[k]
    ensures multiset(r) == multiset(s)
  {
    s[i := s[j]][j := s[i]]
  }

  /** The passes i, i-1, ..., 1 of the shuffle loop, each swapping position i with
      its drawn partner. */
  function ShufflePasses<T>(s: seq<T>, js: seq<int>, i: int): (r: seq<T>)
    requires i < |s| && SwapsFor(js, |s|)
    ensures |r| == |s| && multiset(r) == multiset(s)
    decreases i
  {
    if i <= 0 then s else ShufflePasses(Swap(s, i, js[i]), js, i - 1)
  }

  /** What `shuffleArray(s)` returns for the draws `js`. */
  function Shuffle<T>(s: seq<T>, js: seq<int>): (r: seq<T>)
    requires SwapsFor(js, |s|)
    ensures |r| == |s| && multiset(r) == multiset(s)
  {
    ShufflePasses(s, js, |s| - 1)
  }

  /** `shuffleArray`: copies the input and shuffles the copy in place, from the
      last position down to position 1. The input is left as it was. */
  method ShuffleArray<T>(input: seq<T>, js: seq<int>) returns (r: seq<T>)
    requires SwapsFor(js, |input|)
    ensures r == Shuffle(input, js)
    ensures multiset(r) == multiset(input)
  {
    var a := new T[|input|](k requires 0 <= k < |input| => input[k]);
    assert a[..] == input;
    var i := a.Length - 1;
    while i > 0
      invariant -1 <= i < a.Length == |input|
      invariant ShufflePasses(a[..], js, i) == Shuffle(input, js)
    {
      var j := js[i];
      ghost var before := a[..];
      assert ShufflePasses(before, js, i) == ShufflePasses(Swap(before, i, j), js, i - 1);
      a[i], a[j] := a[j], a[i];
      assert a[..] == Swap(before, i, j);
      i := i - 1;
    }
    r := a[..];
  }

  /** Draws that pair every position with itself leave the order unchanged. */
  lemma {:induction false} ShufflePassesIdentity<T>(s: seq<T>, js: seq<int>, i: nat)
    requires i < |s| && SwapsFor(js, |s|)
    requires forall k :: 0 <= k < |s| ==> js[k] == k
    ensures ShufflePasses(s, js, i) == s
    decreases i
  {
    if i == 0 {
      assert ShufflePasses(s, js, 0) == s;
    } else {
      var prev := ShufflePasses(s, js, i - 1);
      ShufflePassesIdentity(s, js, i - 1);
      assert prev == s;
      IdentityPass(s, js, i);
    }
  }

  /** A pass whose drawn partner is the position itself does nothing. */
  lemma IdentityPass<T>(s: seq<T>, js: seq<int>, i: int)
    requires 0 < i < |s| && SwapsFor(js, |s|) && js[i] == i
    ensures ShufflePasses(s, js, i) == ShufflePasses(s, js, i - 1)
  {
    SwapSelf(s, i);
  }

  /** Swapping a position with itself changes nothing. */
  lemma SwapSelf<T>(s: seq<T>, i: nat)
    requires i < |s|
    ensures Swap(s, i, i) == s
  {
    assert s[i := s[i]] == s;
  }

  lemma ShuffleIdentity<T>(s: seq<T>, js: seq<int>)
    requires SwapsFor(js, |s|)
    requires forall k :: 0 <= k < |s| ==> js[k] == k
    ensures Shuffle(s, js) == s
  {
    if s != [] {
      ShufflePassesIdentity(s, js, |s| - 1);
    }
  }

  /** A shuffle of a duplicate-free list is duplicate-free. */
  lemma ShuffleDistinct<T>(s: seq<T>, js: seq<int>)
    requires SwapsFor(js, |s|) && Distinct(s)
    ensures Distinct(Shuffle(s, js))
  {
    DistinctSub(Shuffle(s, js), s);
  }

  // ------------------------------------------------------------------ formatTime

  /** JavaScript's `a / b` for b > 0, truncated toward zero as `%` divides. */
  function JsTrunc(a: int, b: int): int
    requires b > 0
  {
    if a >= 0 then a / b else -((-a) / b)
  }

  /** JavaScript's `a % b` for b > 0: the remainder takes the sign of `a`. */
  function JsRem(a: int, b: int): (r: int)
    requires b > 0
    ensures a >= 0 ==> 0 <= r < b
    ensures a < 0 ==> -b < r <= 0
  {
    if a >= 0 then a % b else -((-a) % b)
  }

  /** The truncated quotient and the remainder put `a` back together. */
  lemma JsRemReconstructs(a: int, b: int)
    requires b > 0
    ensures a == JsTrunc(a, b) * b + JsRem(a, b)
  {
    var m := if a >= 0 then a else -a;
    assert m == (m / b) * b + m % b;
  }

  /** `formatTime(seconds)`: minutes `Math.floor(seconds / 60)` and seconds
      `seconds % 60`, each padded to two characters, joined by a colon. */
  function FormatTime(seconds: int): (r: string)
    ensures seconds >= 0 ==> |r| >= 5 && r[|r| - 3] == ':'
    // below 100 minutes the clock is always five characters, "mm:ss"
    ensures 0 <= seconds < 6000 ==> |r| == 5
  {
    ClockPieceWidths(seconds);
    PadStart2(IntToString(seconds / 60)) + ":" + PadStart2(IntToString(JsRem(seconds, 60)))
  }

  /** The widths of the two padded pieces of the clock. */
  lemma ClockPieceWidths(seconds: int)
    ensures seconds >= 0 ==> |PadStart2(IntToString(JsRem(seconds, 60)))| == 2
    ensures 0 <= seconds < 6000 ==> |PadStart2(IntToString(seconds / 60))| == 2
  {
    if seconds >= 0 {
      NatToStringShort(seconds % 60);
      if seconds < 6000 {
        NatToStringShort(seconds / 60);
      }
    }
  }

  /** For a time that is not negative, the clock reads back as the time it shows:
      digits, a colon, then exactly two digits worth less than 60, and
      minutes * 60 + seconds is the input. */
  lemma FormatTimeReadsBack(t: int)
    requires t >= 0
    ensures var r := FormatTime(t);
      && |r| >= 5 && r[|r| - 3] == ':'
      && AllDigits(r[..|r| - 3]) && AllDigits(r[|r| - 2..])
      && DecimalValue(r[|r| - 2..]) < 60
      && DecimalValue(r[..|r| - 3]) * 60 + DecimalValue(r[|r| - 2..]) == t
  {
    var m, sec := t / 60, t % 60;
    var mm, sp := PadStart2(NatToString(m)), PadStart2(NatToString(sec));
    assert |mm| >= 2 && AllDigits(mm) && DecimalValue(mm) == m by {
      PaddedValue(NatToString(m));
    }
    assert |sp| == 2 && AllDigits(sp) && DecimalValue(sp) == sec by {
      NatToStringShort(sec);
      PaddedValue(NatToString(sec));
    }
    assert DecimalValue(mm) * 60 + DecimalValue(sp) == t by {
      assert m * 60 + sec == t;
    }
    var r := FormatTime(t);
    assert r == mm + ":" + sp by {
      FormatTimeNatural(t);
    }
    ClockReadsBack(r, mm, sp, t);
  }

  /** For a time that is not negative, both pieces are plain digit strings. */
  lemma FormatTimeNatural(t: int)
    requires t >= 0
    ensures FormatTime(t) == PadStart2(NatToString(t / 60)) + ":" + PadStart2(NatToString(t % 60))
  {
    assert JsRem(t, 60) == t % 60;
  }

  /** A clock joined from two digit pieces reads back as the time it shows. */
  lemma ClockReadsBack(r: string, mm: string, sp: string, t: int)
    requires r == mm + ":" + sp
    requires |mm| >= 2 && |sp| == 2 && AllDigits(mm) && AllDigits(sp)
    requires DecimalValue(sp) < 60 && DecimalValue(mm) * 60 + DecimalValue(sp) == t
    ensures |r| >= 5 && r[|r| - 3] == ':'
    ensures AllDigits(r[..|r| - 3]) && AllDigits(r[|r| - 2..])
    ensures DecimalValue(r[|r| - 2..]) < 60
    ensures DecimalValue(r[..|r| - 3]) * 60 + DecimalValue(r[|r| - 2..]) == t
  {
    ClockParts(mm, sp);
  }

  /** The pieces of "mm:ss" can be read off the joined string. */
  lemma ClockParts(mm: string, sp: string)
    requires |mm| >= 2 && |sp| == 2
    ensures var r := mm + ":" + sp;
      && |r| >= 5 && r[|r| - 3] == ':'
      && r[|r| - 2..] == sp && r[..|r| - 3] == mm
  {
    var r := mm + ":" + sp;
    assert r[|r| - 2..] == sp;
    assert r[..|r| - 3] == mm;
  }

  /** Padding with zeros keeps a digit string's value. */
  lemma PaddedValue(s: string)
    requires forall k :: 0 <= k < |s| ==> IsDigit(s[k])
    ensures forall k :: 0 <= k < |PadStart2(s)| ==> IsDigit(PadStart2(s)[k])
    ensures DecimalValue(PadStart2(s)) == DecimalValue(s)
  {
    if |s| == 0 {
      assert DecimalValue("0") == 0 by { assert "0"[..0] == ""; }
      assert DecimalValue("00") == 0 by { assert "00"[..1] == "0"; assert "0"[..0] == ""; }
    } else if |s| == 1 {
      LeadingZeroValue(s);
    }
  }

  /** A negative time is not clamped: JavaScript's sign rules show through. */
  lemma FormatTimeNegative()
    ensures FormatTime(-5) == "-1:-5"
  {
    assert -5 / 60 == -1;
    assert JsRem(-5, 60) == -5;
    SignedDigit(1);
    SignedDigit(5);
  }

  /** A negative one-digit number prints as a minus and the digit, already two wide. */
  lemma SignedDigit(d: nat)
    requires 0 < d < 10
    ensures PadStart2(IntToString(-(d as int))) == ['-', DigitChar(d)]
  {
    assert NatToString(d) == [DigitChar(d)];
  }

  // -------------------------------------------------------------- DIFFICULTY_MAP

  /** The own entries of `DIFFICULTY_MAP`: each label of a tier and each tier code. */
  const DIFFICULTY_MAP: map<string, Difficulty> := map[
    "Nhận biết" := NB,
    "Thông hiểu" := TH,
    "Vận dụng" := VD,
    "Vận dụng cao" := VDC,
    "NB" := NB,
    "TH" := TH,
    "VD" := VD,
    "VDC" := VDC]

  /** The property names every object literal inherits from `Object.prototype`.
      Each names a function or an object, so each reads as a truthy value. */
  const OBJECT_PROTOTYPE_MEMBERS: set<string> := {
    "constructor", "hasOwnProperty", "isPrototypeOf", "propertyIsEnumerable",
    "toLocaleString", "toString", "valueOf", "__proto__",
    "__defineGetter__", "__defineSetter__", "__lookupGetter__", "__lookupSetter__"}

  /** The labels and codes of the table are not inherited names. */
  lemma MapKeysNotInherited()
    ensures DIFFICULTY_MAP.Keys !! OBJECT_PROTOTYPE_MEMBERS
  {
  }

  /** What `DIFFICULTY_MAP[diffInput] || 'NB'` evaluates to: a tier, or the
      inherited member a key such as "constructor" reaches. */
  datatype DifficultyValue = Tier(d: Difficulty) | Inherited(name: string)

  /** Whether `v ? String(v) : ...`, or a key `obj[v || ...]`, converts a value
      that may be undefined without throwing: a falsy value is not converted. */
  predicate ConvertsIfTruthy(v: Option<Json>) {
    !Truthy(v) || Printable(v.value)
  }

  /** The property key `DIFFICULTY_MAP[v]` looks up: `q.difficulty || 'NB'`
      converted with `String(...)`. A difficulty whose conversion throws makes
      the whole record throw; `NormalizeQuestion` models that case. */
  function DifficultyKey(raw: Option<Json>): string
    requires ConvertsIfTruthy(raw)
  {
    if Truthy(raw) then ToJsString(raw.value) else "NB"
  }

  /** `DIFFICULTY_MAP[q.difficulty || 'NB'] || 'NB'` as written: the lookup goes on
      to `Object.prototype` when the key is not an own entry. */
  function DifficultyAsWritten(raw: Option<Json>): (r: DifficultyValue)
    requires ConvertsIfTruthy(raw)
    ensures r.Inherited? <==> DifficultyKey(raw) in OBJECT_PROTOTYPE_MEMBERS
    ensures r.Inherited? ==> r.name == DifficultyKey(raw)
  {
    var key := DifficultyKey(raw);
    if key in DIFFICULTY_MAP then Tier(DIFFICULTY_MAP[key])
    else if key in OBJECT_PROTOTYPE_MEMBERS then Inherited(key)
    else Tier(NB)
  }

  /** A question whose difficulty is "constructor" ends up with no tier at all:
      the inherited `Object` function becomes its difficulty. */
  lemma DifficultyAsWrittenLeaks()
    ensures DifficultyAsWritten(Some(JStr("constructor"))) == Inherited("constructor")
    ensures DifficultyAsWritten(Some(JStr("toString"))).Inherited?
  {
  }

  /** The difficulty ingestion evidently means: the tier the table names for the
      key, and 'NB' for every key that is not an own entry of the table. */
  function NormalizeDifficulty(raw: Option<Json>): (d: Difficulty)
    requires ConvertsIfTruthy(raw)
    ensures DifficultyKey(raw) in DIFFICULTY_MAP ==> d == DIFFICULTY_MAP[DifficultyKey(raw)]
    ensures DifficultyKey(raw) !in DIFFICULTY_MAP ==> d == NB
  {
    var key := DifficultyKey(raw);
    if key in DIFFICULTY_MAP then DIFFICULTY_MAP[key] else NB
  }

  /** The corrected lookup agrees with the written one wherever the written one
      yields a tier, and only differs on the inherited names. */
  lemma NormalizeDifficultyAgrees(raw: Option<Json>)
    requires ConvertsIfTruthy(raw)
    ensures DifficultyAsWritten(raw).Tier? ==> DifficultyAsWritten(raw).d == NormalizeDifficulty(raw)
    ensures DifficultyAsWritten(raw).Inherited? ==> NormalizeDifficulty(raw) == NB
  {
  }

  /** Each tier is read back from its code and from its Vietnamese label; a missing,
      empty or unknown difficulty falls back to 'NB'. */
  lemma DifficultyReadsBack(d: Difficulty)
    ensures NormalizeDifficulty(Some(JStr(DifficultyCode(d)))) == d
    ensures NormalizeDifficulty(Some(JStr(DIFFICULTY_LABELS[DifficultyCode(d)]))) == d
    ensures NormalizeDifficulty(None) == NB && NormalizeDifficulty(Some(JStr(""))) == NB
  {
  }

  // ---------------------------------------------------------- normalizeQuestions

  /** The records a parsed file holds: the file itself when it is an array (the
      older format), its `questions` array when it is an object that has one,
      and nothing otherwise. */
  function SelectRecords(input: Json): (data: seq<Json>)
    ensures input.JArr? ==> data == input.items
    ensures input.JObj? && "questions" in input.fields && input.fields["questions"].JArr?
      ==> data == input.fields["questions"].items
    ensures !input.JArr? && !(input.JObj? && "questions" in input.fields && input.fields["questions"].JArr?)
      ==> data == []
  {
    if input.JArr? then input.items
    else if Truthy(Some(input)) && IsObjectTyped(input)
      && Prop(input, "questions").Some? && Prop(input, "questions").value.JArr?
    then Prop(input, "questions").value.items
    else []
  }

  /** `q[keys[0]] || q[keys[1]] || ...`: the first of the named fields that holds a
      truthy value, or None when none does. */
  function FirstTruthy(q: Json, keys: seq<string>): (r: Option<Json>)
    ensures r.None? <==> forall k :: 0 <= k < |keys| ==> !Truthy(Prop(q, keys[k]))
    ensures r.Some? ==> Truthy(r) && exists i :: (0 <= i < |keys| && r == Prop(q, keys[i])
                                            && forall j :: 0 <= j < i ==> !Truthy(Prop(q, keys[j])))
    ensures forall i :: (0 <= i < |keys| && Truthy(Prop(q, keys[i]))
                         && (forall j :: 0 <= j < i ==> !Truthy(Prop(q, keys[j])))
                         ==> r == Prop(q, keys[i]))
  {
    if keys == [] then None
    else if Truthy(Prop(q, keys[0])) then Prop(q, keys[0])
    else
      var r := FirstTruthy(q, keys[1..]);
      assert forall k :: 1 <= k < |keys| ==> keys[k] == keys[1..][k - 1];
      assert forall i :: (0 <= i < |keys| && Truthy(Prop(q, keys[i]))
                          && (forall j :: 0 <= j < i ==> !Truthy(Prop(q, keys[j])))
                          ==> r == Prop(q, keys[i])) by {
        forall i | 0 <= i < |keys| && Truthy(Prop(q, keys[i]))
                   && (forall j :: 0 <= j < i ==> !Truthy(Prop(q, keys[j])))
          ensures r == Prop(q, keys[i])
        {
          assert i != 0;
          assert keys[1..][i - 1] == keys[i];
          assert forall j :: 0 <= j < i - 1 ==> !Truthy(Prop(q, keys[1..][j])) by {
            forall j | 0 <= j < i - 1 ensures !Truthy(Prop(q, keys[1..][j])) {
              assert keys[1..][j] == keys[j + 1];
            }
          }
        }
      }
      assert r.Some? ==> exists i :: (0 <= i < |keys| && r == Prop(q, keys[i])
                                      && forall j :: 0 <= j < i ==> !Truthy(Prop(q, keys[j]))) by {
        if r.Some? {
          var i :| 0 <= i < |keys[1..]| && r == Prop(q, keys[1..][i])
            && forall j :: 0 <= j < i ==> !Truthy(Prop(q, keys[1..][j]));
          assert r == Prop(q, keys[i + 1]);
        }
      }
      r
  }

  /** `q[keys[0]] || q[keys[1]] || ... || ''`: the value of the first named field
      that is truthy, kept as it was read, or the empty string when none is. */
  function FieldChain(q: Json, keys: seq<string>): (r: Json)
    ensures Truthy(Some(r)) || r == JStr("")
    ensures (forall k :: 0 <= k < |keys| ==> !Truthy(Prop(q, keys[k]))) ==> r == JStr("")
    ensures forall i :: (0 <= i < |keys| && Truthy(Prop(q, keys[i]))
                         && (forall j :: 0 <= j < i ==> !Truthy(Prop(q, keys[j])))
                         ==> Some(r) == Prop(q, keys[i]))
  {
    var v := FirstTruthy(q, keys);
    if v.Some? then v.value else JStr("")
  }

  /** The field names tried, in order, for a question's worked solution. */
  const EXPLANATION_FIELDS: seq<string> := ["explanation", "solution", "loigiai", "loi_giai", "guide", "huongdan"]

  /** Whether the template `${id}. ${opt.content}` of an object option returns:
      the truthy id and the content convert to text. */
  predicate OptionConverts(opt: Json) {
    ConvertsIfTruthy(Prop(opt, "id")) && Converts(Prop(opt, "content"))
  }

  /** One option given as an object `{id, content}` at position k, written as
      "ID. Content"; the id defaults to the letter for position k. */
  function ObjectOption(opt: Json, k: nat): (r: string)
    requires !opt.JNull? && OptionConverts(opt)
    ensures !Truthy(Prop(opt, "id")) ==> |r| >= 3 && r[..1] == [FromCharCode(65 + k)] && r[1..3] == ". "
    ensures forall s :: Prop(opt, "id") == Some(JStr(s)) && s != "" ==> s + ". " <= r
    ensures forall s :: Prop(opt, "content") == Some(JStr(s)) ==> |r| >= |s| + 2 && r[|r| - |s|..] == s
  {
    var id := Prop(opt, "id");
    var head := (if Truthy(id) then ToJsString(id.value) else [FromCharCode(65 + k)]) + ". ";
    var tail := TemplateText(Prop(opt, "content"));
    assert (head + tail)[|head|..] == tail;
    head + tail
  }

  /** The options of a record. An array whose first entry is an object (or null) is
      read entry by entry as `{id, content}` objects and becomes a list of texts;
      reading a null entry that way throws a TypeError, here None, and so does an
      entry whose id or content cannot be converted to text. Another array is
      kept as it is, entries included. Any other value gives no options. */
  function NormalizeOptions(raw: Option<Json>): (r: Option<seq<Json>>)
    ensures !(raw.Some? && raw.value.JArr?) ==> r == Some([])
    ensures raw.Some? && raw.value.JArr? && !(|raw.value.items| > 0 && IsObjectTyped(raw.value.items[0]))
      ==> r == Some(raw.value.items)
    ensures raw.Some? && raw.value.JArr? ==> (r.Some? ==> |r.value| == |raw.value.items|)
    ensures r.None? <==> (raw.Some? && raw.value.JArr? && |raw.value.items| > 0
                          && IsObjectTyped(raw.value.items[0])
                          && exists k :: 0 <= k < |raw.value.items|
                                         && (raw.value.items[k].JNull? || !OptionConverts(raw.value.items[k])))
    // what comes out is never again read as object-format options
    ensures r.Some? && |r.value| > 0 ==> !IsObjectTyped(r.value[0])
  {
    if raw.Some? && raw.value.JArr? then
      var items := raw.value.items;
      if |items| > 0 && IsObjectTyped(items[0]) then
        if exists k :: 0 <= k < |items| && (items[k].JNull? || !OptionConverts(items[k])) then None
        else Some(seq(|items|, k requires 0 <= k < |items| => JStr(ObjectOption(items[k], k))))
      else Some(items)
    else Some([])
  }

  /** With objects, option k is the text "ID. Content" of the k-th object;
      otherwise the array is kept as it is. */
  lemma OptionTexts(items: seq<Json>)
    ensures var r := NormalizeOptions(Some(JArr(items)));
      if |items| > 0 && IsObjectTyped(items[0])
      then (r.Some? ==> forall k :: 0 <= k < |items| ==>
              (!items[k].JNull? && OptionConverts(items[k]) && r.value[k] == JStr(ObjectOption(items[k], k))))
      else r == Some(items)
  {
  }

  /** Whether the correct answer's `String(...)` returns: only the field the
      precedence picks is converted, and a numeric `correctOptionId` is not. */
  predicate CorrectAnswerConverts(q: Json) {
    var cid, ca := Prop(q, "correctOptionId"), Prop(q, "correctAnswer");
    if cid.Some? && cid.value.JNum? then true
    else if cid.Some? && !cid.value.JNull? then Printable(cid.value)
    else ca.None? || ca.value.JNull? || Printable(ca.value)
  }

  /** `q.correctOptionId` as a number k gives the letter for position k; any other
      present, non-null `correctOptionId` is converted to text; otherwise a present,
      non-null `correctAnswer` is; otherwise there is none (""). */
  function NormalizeCorrectAnswer(q: Json): (r: string)
    requires CorrectAnswerConverts(q)
    ensures Prop(q, "correctOptionId").Some? && Prop(q, "correctOptionId").value.JNum? ==> |r| == 1
    ensures forall s :: Prop(q, "correctOptionId") == Some(JStr(s)) ==> r == s
    ensures Prop(q, "correctOptionId") in {None, Some(JNull)} && Prop(q, "correctAnswer") in {None, Some(JNull)}
      ==> r == ""
  {
    var cid := Prop(q, "correctOptionId");
    var ca := Prop(q, "correctAnswer");
    if cid.Some? && cid.value.JNum? then [FromCharCode(65 + cid.value.n)]
    else if cid.Some? && !cid.value.JNull? then ToJsString(cid.value)
    else if ca.Some? && !ca.value.JNull? then ToJsString(ca.value)
    else ""
  }

  /** `correctOptionId` takes precedence over `correctAnswer`, and a numeric one
      names the option at that position by its letter. */
  lemma CorrectAnswerPrecedence(q: Json)
    requires CorrectAnswerConverts(q)
    ensures forall s :: Prop(q, "correctOptionId") == Some(JStr(s)) ==> NormalizeCorrectAnswer(q) == s
    ensures forall k :: (0 <= k < 26 && Prop(q, "correctOptionId") == Some(JNum(k))
                         ==> NormalizeCorrectAnswer(q) == [(65 + k) as char])
    ensures var ca := Prop(q, "correctAnswer");
      Prop(q, "correctOptionId") in {None, Some(JNull)} && ca.Some? && !ca.value.JNull?
      ==> NormalizeCorrectAnswer(q) == ToJsString(ca.value)
  {
  }

  /** The question type as copied from `q.type || 'MCQ'`: one of the four codes, or
      whatever else the file holds. */
  function TypeTagOf(v: Json): (t: TypeTag)
    ensures t.Listed? ==> v == JStr(TypeCode(t.kind))
    ensures forall k: QuestionType :: v == JStr(TypeCode(k)) ==> t == Listed(k)
    ensures t.Unlisted? ==> t.raw == v
  {
    if v == JStr("MCQ") then Listed(MCQ)
    else if v == JStr("Essay") then Listed(Essay)
    else if v == JStr("TF") then Listed(TF)
    else if v == JStr("SA") then Listed(SA)
    else Unlisted(v)
  }

  /** Whether mapping record q throws a TypeError: reading a field of null, an
      object-format option that throws, or a conversion to text (of the difficulty
      key, the correct answer or the id) of a value that cannot be converted. */
  predicate RecordThrows(q: Json) {
    || q.JNull?
    || NormalizeOptions(Prop(q, "options")).None?
    || !ConvertsIfTruthy(Prop(q, "difficulty"))
    || !CorrectAnswerConverts(q)
    || !ConvertsIfTruthy(Prop(q, "id"))
  }

  /** One record, at position `index` of the selected list, made into a
      `Question`; None when the source's mapping throws. */
  function NormalizeQuestion(q: Json, index: nat): (r: Option<Question>)
    ensures r.None? <==> RecordThrows(q)
    ensures r.Some? ==> r.value.options.Some? && r.value.correctAnswer.Some? && r.value.explanation.Some?
    // id: String(q.id) when truthy, "q-" and the position otherwise
    ensures r.Some? && Truthy(Prop(q, "id")) ==> r.value.id == ToJsString(Prop(q, "id").value)
    ensures r.Some? && !Truthy(Prop(q, "id")) ==> r.value.id == "q-" + NatToString(index)
    // content: q.content, else q.text, else "", each kept as it was read
    ensures r.Some? && Truthy(Prop(q, "content")) ==> Some(r.value.content) == Prop(q, "content")
    ensures r.Some? && !Truthy(Prop(q, "content")) && Truthy(Prop(q, "text"))
      ==> Some(r.value.content) == Prop(q, "text")
    ensures r.Some? && !Truthy(Prop(q, "content")) && !Truthy(Prop(q, "text")) ==> r.value.content == JStr("")
    // type: q.type when truthy, "MCQ" otherwise
    ensures r.Some? && !Truthy(Prop(q, "type")) ==> r.value.qtype == Listed(MCQ)
    ensures r.Some? && Truthy(Prop(q, "type")) ==> r.value.qtype == TypeTagOf(Prop(q, "type").value)
    // difficulty, options and correct answer as their own functions give them
    ensures r.Some? ==> r.value.difficulty == NormalizeDifficulty(Prop(q, "difficulty"))
    ensures r.Some? ==> r.value.options == NormalizeOptions(Prop(q, "options"))
    ensures r.Some? ==> r.value.correctAnswer == Some(NormalizeCorrectAnswer(q))
    // explanation: the first truthy of the six field names, else ""
    ensures r.Some? ==> r.value.explanation == Some(FieldChain(q, EXPLANATION_FIELDS))
  {
    if RecordThrows(q) then None
    else
      match NormalizeOptions(Prop(q, "options"))
      case None => None
      case Some(options) =>
        var id := Prop(q, "id");
        var ty := Prop(q, "type");
        var contentKeys := ["content", "text"];
        assert contentKeys[0] == "content" && contentKeys[1] == "text";
        Some(Question(
          id := if Truthy(id) then ToJsString(id.value) else "q-" + NatToString(index),
          content := FieldChain(q, contentKeys),
          qtype := if Truthy(ty) then TypeTagOf(ty.value) else Listed(MCQ),
          difficulty := NormalizeDifficulty(Prop(q, "difficulty")),
          options := Some(options),
          correctAnswer := Some(NormalizeCorrectAnswer(q)),
          explanation := Some(FieldChain(q, EXPLANATION_FIELDS))))
  }

  /** `normalizeQuestions(input)`: the selected records mapped one by one, the
      record at position k given k as its index; None where the mapping throws
      for some record. */
  function NormalizeQuestions(input: Json): (r: Option<seq<Question>>)
    ensures var data := SelectRecords(input);
      r.Some? ==> (|r.value| == |data|
                   && forall k :: 0 <= k < |data| ==> NormalizeQuestion(data[k], k) == Some(r.value[k]))
    ensures var data := SelectRecords(input);
      r.None? <==> exists k :: 0 <= k < |data| && RecordThrows(data[k])
  {
    var data := SelectRecords(input);
    if exists k :: 0 <= k < |data| && NormalizeQuestion(data[k], k).None? then None
    else Some(seq(|data|, k requires 0 <= k < |data| => NormalizeQuestion(data[k], k).value))
  }

  /** An object with its own `toString` field cannot be converted to text, so a
      record whose id is such an object makes the whole file fail to load. */
  lemma OwnToStringThrows()
    ensures var id := JObj(map["toString" := JStr("x")]);
      NormalizeQuestions(JArr([JObj(map["id" := id])])).None?
  {
    var id := JObj(map["toString" := JStr("x")]);
    var rec := JObj(map["id" := id]);
    assert SelectRecords(JArr([rec]))[0] == rec;
    assert !ConvertsIfTruthy(Prop(rec, "id"));
  }

  /** A record without a usable id gets "q-" and its position, so such records
      never share an id with each other. */
  lemma DefaultIdsDistinct(input: Json)
    requires NormalizeQuestions(input).Some?
    ensures var data, qs := SelectRecords(input), NormalizeQuestions(input).value;
      forall k :: 0 <= k < |qs| && !Truthy(Prop(data[k], "id")) ==> qs[k].id == "q-" + NatToString(k)
    ensures var data, qs := SelectRecords(input), NormalizeQuestions(input).value;
      forall i, j :: (0 <= i < j < |qs| && !Truthy(Prop(data[i], "id")) && !Truthy(Prop(data[j], "id"))
                      ==> qs[i].id != qs[j].id)
  {
    var data, qs := SelectRecords(input), NormalizeQuestions(input).value;
    forall i, j | 0 <= i < j < |qs| && !Truthy(Prop(data[i], "id")) && !Truthy(Prop(data[j], "id"))
      ensures qs[i].id != qs[j].id
    {
      assert NormalizeQuestion(data[i], i) == Some(qs[i]);
      assert NormalizeQuestion(data[j], j) == Some(qs[j]);
      assert qs[i].id[2..] == NatToString(i) && qs[j].id[2..] == NatToString(j);
      assert NatToString(i) != NatToString(j) by {
        if NatToString(i) == NatToString(j) { NatToStringInjective(i, j); }
      }
    }
  }

  /** A numeric `correctOptionId` k names option k: when that option is given as an
      object without an id, its text starts with the same letter and ". ". */
  lemma CorrectOptionIdNamesOption(q: Json, index: nat, k: nat)
    requires NormalizeQuestion(q, index).Some?
    requires Prop(q, "correctOptionId") == Some(JNum(k))
    requires Prop(q, "options").Some? && Prop(q, "options").value.JArr?
    requires var items := Prop(q, "options").value.items;
      k < |items| && IsObjectTyped(items[0]) && !Truthy(Prop(items[k], "id"))
    ensures var x := NormalizeQuestion(q, index).value;
      k < |x.options.value| && x.options.value[k].JStr? && |x.options.value[k].s| >= 3
      && x.options.value[k].s[..1] == x.correctAnswer.value && x.options.value[k].s[1..3] == ". "
  {
    var items := Prop(q, "options").value.items;
    var x := NormalizeQuestion(q, index).value;
    assert x.options == NormalizeOptions(Some(JArr(items)));
    assert x.correctAnswer.value == NormalizeCorrectAnswer(q);
    assert NormalizeCorrectAnswer(q) == [FromCharCode(65 + k)];
    ObjectOptionAt(items, k);
    var o := ObjectOption(items[k], k);
    assert |o| >= 3 && o[..1] == [FromCharCode(65 + k)] && o[1..3] == ". ";
  }

  /** Entry k of object-format options is the k-th object written out. */
  lemma ObjectOptionAt(items: seq<Json>, k: nat)
    requires NormalizeOptions(Some(JArr(items))).Some?
    requires k < |items| && IsObjectTyped(items[0])
    ensures !items[k].JNull?
    ensures NormalizeOptions(Some(JArr(items))).value[k] == JStr(ObjectOption(items[k], k))
  {
  }
}
