/** Checking one answer of the guided conversation against its field. */
module Answers {
  import opened Json
  import opened Contract

  /** What Python makes of values that are not of the kind a field wants: text as a number, anything as text, and whether
      a text matches a pattern. */
  datatype Host = Host(parseFloat: string -> Option<real>, str: Json -> string, matches: (string, string) -> bool)

  /** str of anything but a text is a text, and never the empty one. */
  ghost predicate Sensible(h: Host) {
    forall v: Json :: !v.Str? ==> h.str(v) != ""
  }

  datatype Complaint = Required | NotAnOption | InvalidOptions | ExpectedNumber | BelowMin | AboveMax | BadFormat

  /** Accepted with the value to store, refused with a message for the user, or an error nobody catches. */
  datatype Verdict = Accepted(value: Json) | Refuses(why: Complaint) | Crashes

  function Kind(f: Field): string {
    if f.kind.Some? then f.kind.value else "string"
  }

  function Values(f: Field): set<string> {
    if f.choices.Some? then ValuesOf(f.choices.value) else {}
  }

  function ValuesOf(cs: seq<Choice>): set<string> {
    if cs == [] then {} else {cs[0].value} + ValuesOf(cs[1..])
  }

  /** Lists and objects cannot be looked up in a set. */
  predicate Hashable(v: Json) {
    !v.Arr? && !v.Obj?
  }

  predicate Offered(v: Json, allowed: set<string>) {
    v.Str? && v.s in allowed
  }

  function ToFloat(h: Host, v: Json): Option<real> {
    match v
    case Num(n) => Some(n)
    case Bool(b) => Some(if b then 1.0 else 0.0)
    case Str(s) => h.parseFloat(s)
    case _ => None
  }

  function CheckEnum(allowed: set<string>, v: Json): Verdict {
    if allowed == {} then Accepted(v)
    else if !Hashable(v) then Crashes
    else if Offered(v, allowed) then Accepted(v)
    else Refuses(NotAnOption)
  }

  function AsList(v: Json): seq<Json> {
    if v.Arr? then v.items else [v]
  }

  function CheckMulti(allowed: set<string>, v: Json): Verdict {
    var vs := AsList(v);
    if allowed == {} then Accepted(Arr(vs))
    else if exists i :: 0 <= i < |vs| && !Hashable(vs[i]) then Crashes
    else if exists i :: 0 <= i < |vs| && !Offered(vs[i], allowed) then Refuses(InvalidOptions)
    else Accepted(Arr(vs))
  }

  function CheckNumber(h: Host, f: Field, v: Json): Verdict {
    match ToFloat(h, v)
    case None => Refuses(ExpectedNumber)
    case Some(n) =>
      if f.min.Some? && n < f.min.value then Refuses(BelowMin)
      else if f.max.Some? && n > f.max.value then Refuses(AboveMax)
      else Accepted(Num(n))
  }

  function Text(h: Host, v: Json): string {
    if v.Str? then v.s else h.str(v)
  }

  function CheckString(h: Host, f: Field, v: Json): Verdict {
    var t := Text(h, v);
    if f.pattern.Some? && f.pattern.value != "" && !h.matches(f.pattern.value, t) then Refuses(BadFormat)
    else Accepted(Str(t))
  }

  /** validate_answer. */
  function Validate(h: Host, f: Field, v: Json): Verdict {
    if Blank(v) then (if f.required then Refuses(Required) else Accepted(v))
    else if Kind(f) == "enum" then CheckEnum(Values(f), v)
    else if Kind(f) == "multi_enum" then CheckMulti(Values(f), v)
    else if Kind(f) in {"number", "currency", "percentage"} then CheckNumber(h, f, v)
    else if Kind(f) == "string" then CheckString(h, f, v)
    else Accepted(v)
  }

  /** What is stored for a field has the shape its kind promises. */
  predicate Fits(h: Host, f: Field, v: Json) {
    if Blank(v) then !f.required
    else if Kind(f) == "enum" then Values(f) == {} || Offered(v, Values(f))
    else if Kind(f) == "multi_enum" then
      v.Arr? && (Values(f) == {} || forall i :: 0 <= i < |v.items| ==> Offered(v.items[i], Values(f)))
    else if Kind(f) in {"number", "currency", "percentage"} then
      v.Num? && (f.min.Some? ==> f.min.value <= v.n) && (f.max.Some? ==> v.n <= f.max.value)
    else if Kind(f) == "string" then
      v.Str? && (f.pattern.Some? && f.pattern.value != "" ==> h.matches(f.pattern.value, v.s))
    else true
  }

  /** An accepted value fits the field, and the values that fit are exactly those accepted as they are. */
  lemma AcceptedFits(h: Host, f: Field, v: Json)
    requires Sensible(h)
    ensures Validate(h, f, v).Accepted? ==> Fits(h, f, Validate(h, f, v).value)
    ensures Fits(h, f, v) <==> Validate(h, f, v) == Accepted(v)
  {
    if Kind(f) == "multi_enum" && v.Arr? {
      assert AsList(v) == v.items;
    }
  }

  /** Answering with an accepted value again accepts it unchanged. */
  lemma ValidateIdempotent(h: Host, f: Field, v: Json)
    requires Sensible(h) && Validate(h, f, v).Accepted?
    ensures Validate(h, f, Validate(h, f, v).value) == Validate(h, f, v)
  {
    AcceptedFits(h, f, v);
    AcceptedFits(h, f, Validate(h, f, v).value);
  }

  /** What is stored is the answer: itself, or the list of it, the number it reads as, or its text, where the kind of the
      field wants that. */
  lemma AcceptedIsAnswer(h: Host, f: Field, v: Json)
    requires Validate(h, f, v).Accepted? && Validate(h, f, v).value != v
    ensures var w := Validate(h, f, v).value;
            || (f.kind == Some("multi_enum") && !v.Arr? && w == Arr([v]))
            || (&& f.kind in {Some("number"), Some("currency"), Some("percentage")}
                && ((v.Str? && h.parseFloat(v.s).Some? && w == Num(h.parseFloat(v.s).value))
                    || (v == Bool(true) && w == Num(1.0)) || (v == Bool(false) && w == Num(0.0))))
            || (f.kind in {None, Some("string")} && !v.Str? && w == Str(h.str(v)))
  {
  }

  /** Why an answer is refused, in every case. */
  lemma RefusalsExactly(h: Host, f: Field, v: Json)
    ensures Validate(h, f, v) == Refuses(Required) <==> v in {Null, Str(""), Arr([])} && f.required
    ensures v in {Null, Str(""), Arr([])} && !f.required ==> Validate(h, f, v) == Accepted(v)
    ensures v !in {Null, Str(""), Arr([])} ==>
              && (Validate(h, f, v) == Refuses(NotAnOption) <==>
                    f.kind == Some("enum") && Values(f) != {} && !v.Arr? && !v.Obj? && !Offered(v, Values(f)))
              && (Validate(h, f, v) == Refuses(ExpectedNumber) <==>
                    f.kind in {Some("number"), Some("currency"), Some("percentage")} && ToFloat(h, v).None?)
              && (Validate(h, f, v) == Refuses(BelowMin) <==>
                    && f.kind in {Some("number"), Some("currency"), Some("percentage")} && ToFloat(h, v).Some?
                    && f.min.Some? && ToFloat(h, v).value < f.min.value)
              && (Validate(h, f, v) == Refuses(AboveMax) <==>
                    && f.kind in {Some("number"), Some("currency"), Some("percentage")} && ToFloat(h, v).Some?
                    && (f.min.Some? ==> f.min.value <= ToFloat(h, v).value)
                    && f.max.Some? && f.max.value < ToFloat(h, v).value)
              && (Validate(h, f, v) == Refuses(BadFormat) <==>
                    && f.kind in {None, Some("string")} && f.pattern.Some? && f.pattern.value != ""
                    && !h.matches(f.pattern.value, if v.Str? then v.s else h.str(v)))
  {
  }

  /** The options of a field are the values of its choices. */
  lemma {:induction false} ValuesExactly(cs: seq<Choice>, s: string)
    ensures s in ValuesOf(cs) <==> exists i :: 0 <= i < |cs| && cs[i].value == s
  {
    if cs != [] {
      ValuesExactly(cs[1..], s);
      if i :| 0 <= i < |cs| && cs[i].value == s {
        assert i > 0 ==> cs[1..][i - 1].value == s;
      }
      if s in ValuesOf(cs[1..]) {
        var i :| 0 <= i < |cs[1..]| && cs[1..][i].value == s;
        assert cs[i + 1].value == s;
      }
    }
  }

  /** The only uncaught errors: an option field with options, answered with something that is not a plain value. */
  lemma CrashesExactly(h: Host, f: Field, v: Json)
    ensures Validate(h, f, v) == Crashes <==>
            && !Blank(v) && Values(f) != {}
            && ((Kind(f) == "enum" && !Hashable(v))
                || (Kind(f) == "multi_enum" && exists i :: 0 <= i < |AsList(v)| && !Hashable(AsList(v)[i])))
  {
  }
}
