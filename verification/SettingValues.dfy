/** What a settings call accepts, and what it leaves in the field. */
module SettingValues {
  import opened Wrappers
  import opened Settings
  import Strings = Text

  // ----- Outcomes -----

  ghost predicate Barred(m: Meta, allowLocked: bool) {
    m.edit == Locked && !allowLocked
  }

  /** Each outcome with its exact condition; an accepted value needs a restart, or a
      rebuild, exactly when its setting says so. */
  lemma OutcomesExact(env: Env, cfg: Config, key: string, value: string, allowLocked: bool)
    ensures var r, m := Judge(env, cfg, key, value, allowLocked), MetaOf(env.schema, key);
      && (r == UnknownKey <==>
            m.None? || (!Barred(m.value, allowLocked) && ValidFor(env, m.value, value) && key !in cfg.fields))
      && (r == LockedKey <==> m.Some? && Barred(m.value, allowLocked))
      && (r == InvalidValue <==> m.Some? && !Barred(m.value, allowLocked) && !ValidFor(env, m.value, value))
      && (r.Accepted? ==> (r.restart <==> m.value.edit == RestartRequired) &&
                          (r.rebuild <==> m.value.edit == RebuildRequired))
  {
    hide ValidFor;
  }

  /** An accepted value is the one field changed, and both credentials are read anew
      from the variables the settings name. */
  lemma AppliedExactly(env: Env, cfg: Config, key: string, value: string, allowLocked: bool)
    requires Judge(env, cfg, key, value, allowLocked).Accepted?
    ensures var t := ApplyValue(env, cfg, key, value, allowLocked);
      && key in t.fields && t.fields == cfg.fields[key := t.fields[key]]
      && Named(env, t, "embedding_api_key_env", t.embeddingKey)
      && Named(env, t, "summarizer_api_key_env", t.summarizerKey)
  {
    hide ValidFor, Effective;
  }

  /** The credential is what the environment holds under the name the setting gives. */
  ghost predicate Named(env: Env, cfg: Config, setting: string, credential: string) {
    credential ==
      if setting in cfg.fields && cfg.fields[setting].Text? && cfg.fields[setting].text != "" &&
         env.getenv(cfg.fields[setting].text).Some?
      then env.getenv(cfg.fields[setting].text).value else ""
  }

  /** Writing a secret's mask back is accepted without effect; any other value is
      judged, and published exactly when it is accepted. */
  lemma MaskExact(env: Env, cfg: Config, key: string, value: string, allowLocked: bool)
    ensures var m := MetaOf(env.schema, key);
      var mask := m.Some? && m.value.secret && value == "<set>";
      && (mask && !Barred(m.value, allowLocked) ==>
            SetOutcome(env, cfg, key, value, allowLocked) == Accepted(false, false))
      && (mask ==> !Publishes(env, cfg, key, value, allowLocked))
      && (!mask ==> SetOutcome(env, cfg, key, value, allowLocked) == Judge(env, cfg, key, value, allowLocked))
      && (!mask ==> (Publishes(env, cfg, key, value, allowLocked) <==>
                       SetOutcome(env, cfg, key, value, allowLocked).Accepted?))
  {
    hide ValidFor;
  }

  // ----- Switches, fractions and texts -----

  /** An empty value is always valid and means what the default means. */
  lemma EmptyMeansDefault(env: Env, m: Meta)
    ensures ValidFor(env, m, "") && Effective(env, m, "") == Effective(env, m, m.def)
  {
  }

  predicate SaysYes(v: string) {
    var s := Strings.Lower(v); s == "true" || s == "yes" || s == "1"
  }

  predicate SaysNo(v: string) {
    var s := Strings.Lower(v); s == "false" || s == "no" || s == "0"
  }

  lemma SwitchExact(env: Env, m: Meta, v: string)
    requires m.kind == Boolean && v != ""
    ensures ValidFor(env, m, v) <==> SaysYes(v) || SaysNo(v)
    ensures ValidFor(env, m, v) ==> Effective(env, m, v) == Flag(SaysYes(v))
  {
  }

  lemma FractionExact(env: Env, m: Meta, v: string)
    requires m.kind == Float && v != ""
    ensures ValidFor(env, m, v) <==> env.float(v).Some?
    ensures ValidFor(env, m, v) ==> Effective(env, m, v) == Dec(env.float(v).value)
  {
  }

  /** Texts, paths and choices are kept as given; the two names of variables must be
      identifiers, and the summarizer's prompt a format. */
  lemma TextKept(env: Env, m: Meta, v: string)
    requires v != "" && (m.kind == String || m.kind == Path || m.kind == TextBlock || m.kind == Enum)
    ensures Effective(env, m, v) == Text(v)
    ensures m.kind == String ==>
      (ValidFor(env, m, v) <==>
         (m.key != "embedding_api_key_env" && m.key != "summarizer_api_key_env") || Identifier(v))
    ensures m.kind == Path || m.kind == TextBlock ==>
      (ValidFor(env, m, v) <==> m.key != "summarizer_prompt" || env.formats(v))
  {
  }

  predicate Identifier(s: string) {
    s != "" && !('0' <= s[0] <= '9') && forall i | 0 <= i < |s| ::
      s[i] == '_' || '0' <= s[i] <= '9' || 'a' <= s[i] <= 'z' || 'A' <= s[i] <= 'Z'
  }

  // ----- Choices -----

  /** The choices as they stand in the schema, with commas between. */
  function Listed(choices: seq<string>): string
    requires choices != []
  {
    if |choices| == 1 then choices[0] else choices[0] + "," + Listed(choices[1..])
  }

  lemma {:induction false} OffersToken(choice: string, rest: string, value: string, token: string)
    requires ',' !in choice
    ensures Offers(choice + rest, value, token) <==> Offers(rest, value, token + choice)
  {
    if choice == "" {
      assert choice + rest == rest && token + choice == token;
    } else {
      OffersToken(choice[1..], rest, value, token + [choice[0]]);
      assert (choice + rest)[1..] == choice[1..] + rest;
      assert token + [choice[0]] + choice[1..] == token + choice;
    }
  }

  lemma {:induction false} OffersListed(choices: seq<string>, value: string)
    requires choices != [] && forall c <- choices :: ',' !in c
    ensures Offers(Listed(choices), value, "") <==> value in choices
  {
    if |choices| == 1 {
      assert choices[0] + "" == choices[0] && "" + choices[0] == choices[0];
      OffersToken(choices[0], "", value, "");
    } else {
      OffersListed(choices[1..], value);
      var rest := "," + Listed(choices[1..]);
      assert Listed(choices) == choices[0] + rest && "" + choices[0] == choices[0];
      OffersToken(choices[0], rest, value, "");
      assert rest[1..] == Listed(choices[1..]);
      assert choices == [choices[0]] + choices[1..];
    }
  }

  /** A choice is valid exactly when it is one of the listed ones; without a list any is. */
  lemma ChoiceExact(env: Env, m: Meta, choices: seq<string>, v: string)
    requires m.kind == Enum && v != ""
    requires choices != [] && m.options == Listed(choices) && forall c <- choices :: ',' !in c
    ensures ValidFor(env, m, v) <==> m.options == "" || v in choices
  {
    OffersListed(choices, v);
  }

  // ----- Whole numbers -----

  function Digits(n: nat): (s: string)
    ensures s != "" && forall i | 0 <= i < |s| :: '0' <= s[i] <= '9'
  {
    (if n < 10 then "" else Digits(n / 10)) + [(n % 10 + '0' as int) as char]
  }

  lemma {:induction false} DecimalDigits(n: nat)
    ensures Decimal(Digits(n)) == Some(n)
  {
    var s := Digits(n);
    if n >= 10 {
      DecimalDigits(n / 10);
      assert s[..|s| - 1] == Digits(n / 10);
    } else {
      assert s[..0] == "";
    }
  }

  /** Only digits are read as a number. */
  lemma {:induction false} DecimalOnly(s: string)
    ensures Decimal(s).Some? <==> forall i | 0 <= i < |s| :: '0' <= s[i] <= '9'
  {
    if s != "" {
      DecimalOnly(s[..|s| - 1]);
      assert forall i | 0 <= i < |s| - 1 :: s[..|s| - 1][i] == s[i];
    }
  }

  /** A number in decimal, with a minus sign in front when it is negative. */
  function Shown(x: int): string {
    if x < 0 then "-" + Digits(-x) else Digits(x)
  }

  lemma StripNothing(s: string)
    requires s != "" && !IsSpace(s[0]) && !IsSpace(s[|s| - 1])
    ensures Strip(s) == s
  {
  }

  lemma StripFront(s: string)
    requires s != "" && IsSpace(s[0])
    ensures Strip(s) == Strip(s[1..])
  {
  }

  lemma StripBack(s: string)
    requires s != "" && !IsSpace(s[0]) && IsSpace(s[|s| - 1])
    ensures Strip(s) == Strip(s[..|s| - 1])
  {
  }

  lemma {:induction false} StripBlanks(a: string, s: string, b: string)
    requires s != "" && !IsSpace(s[0]) && !IsSpace(s[|s| - 1])
    requires (forall c <- a :: IsSpace(c)) && forall c <- b :: IsSpace(c)
    ensures Strip(a + s + b) == s
    decreases |a| + |b|
  {
    hide Strip, IsSpace;
    var t := a + s + b;
    if a != "" {
      assert t[0] == a[0] && a[0] in a;
      StripFront(t);
      assert t[1..] == a[1..] + s + b;
      StripBlanks(a[1..], s, b);
    } else if b != "" {
      var n := |b| - 1;
      assert a + s == s;
      assert t[0] == s[0] && t[|t| - 1] == b[n] && b[n] in b;
      StripBack(t);
      assert t[..|t| - 1] == a + s + b[..n];
      StripBlanks(a, s, b[..n]);
    } else {
      assert t == s;
      StripNothing(s);
    }
  }

  lemma ShownEnds(x: int)
    ensures var s := Shown(x); s != "" && !IsSpace(s[0]) && !IsSpace(s[|s| - 1])
    ensures x < 0 ==> Shown(x)[0] == '-' && Shown(x)[1..] == Digits(-x)
    ensures x >= 0 ==> Shown(x)[0] != '-'
  {
    var d := Digits(if x < 0 then -x else x);
    assert '0' <= d[0] <= '9' && '0' <= d[|d| - 1] <= '9';
    assert Shown(x)[|Shown(x)| - 1] == d[|d| - 1];
  }

  lemma StrippedRead(v: string, x: int)
    requires -0x8000_0000_0000_0000 <= x <= 0x7FFF_FFFF_FFFF_FFFF && Strip(v) == Shown(x)
    ensures ParseInt(v) == Some(x)
  {
    hide Strip, Decimal;
    ShownEnds(x);
    DecimalDigits(if x < 0 then -x else x);
  }

  /** Blanks around a number do not matter, and a number that fits a long is read as
      itself. */
  lemma NumberRead(x: int, a: string, b: string)
    requires -0x8000_0000_0000_0000 <= x <= 0x7FFF_FFFF_FFFF_FFFF
    requires (forall c <- a :: IsSpace(c)) && forall c <- b :: IsSpace(c)
    ensures ParseInt(a + Shown(x) + b) == Some(x)
  {
    hide ParseInt, Strip, Shown, IsSpace;
    ShownEnds(x);
    StripBlanks(a, Shown(x), b);
    StrippedRead(a + Shown(x) + b, x);
  }

  /** Nothing is read as a number but digits, with at most a minus sign and blanks. */
  lemma NumberOnly(v: string)
    ensures ParseInt(v).Some? ==>
      var s := Strip(v);
      var digits := if "-" <= s then s[1..] else s;
      digits != "" && forall i | 0 <= i < |digits| :: '0' <= digits[i] <= '9'
  {
    var s := Strip(v);
    DecimalOnly(if s != "" && s[0] == '-' then s[1..] else s);
  }

  /** A field of 32 bits keeps the number when it fits and its low bits otherwise; the
      log's size limit is kept in full; the two percentages lie between 1 and 100. */
  lemma NumberExact(env: Env, m: Meta, x: int)
    requires m.kind == Integer && -0x8000_0000_0000_0000 <= x <= 0x7FFF_FFFF_FFFF_FFFF
    ensures ValidFor(env, m, Shown(x)) <==>
      (m.key != "summarizer_target_pct" && m.key != "summarizer_max_pct") || 1 <= x <= 100
    ensures Effective(env, m, Shown(x)).Num?
    ensures m.key == "log_max_size_mb" ==> Effective(env, m, Shown(x)) == Num(x)
    ensures m.key != "log_max_size_mb" ==>
      var n := Effective(env, m, Shown(x)).num;
      && -0x8000_0000 <= n <= 0x7FFF_FFFF && (x - n) % 0x1_0000_0000 == 0
      && (-0x8000_0000 <= x <= 0x7FFF_FFFF ==> n == x)
  {
    hide ParseInt, Decimal, Shown, Narrow;
    ShownEnds(x);
    NumberRead(x, "", "");
    assert "" + Shown(x) + "" == Shown(x);
    NarrowExact(x);
  }

  lemma NarrowExact(x: int)
    ensures -0x8000_0000 <= Narrow(x) <= 0x7FFF_FFFF && (x - Narrow(x)) % 0x1_0000_0000 == 0
    ensures -0x8000_0000 <= x <= 0x7FFF_FFFF ==> Narrow(x) == x
  {
    var y := x + 0x8000_0000;
    assert y == y / 0x1_0000_0000 * 0x1_0000_0000 + y % 0x1_0000_0000;
    assert x - Narrow(x) == y / 0x1_0000_0000 * 0x1_0000_0000;
  }

  // ----- What a start loads -----

  /** A start takes a valid row at its meaning, and the default where there is no row or
      one that is not valid. */
  lemma StartValue(env: Env, rows: Rows, key: string)
    requires key in env.defaults.fields && !Seeded(key)
    ensures var t, m := Restart(env, rows, true), MetaOf(env.schema, key);
      && key in t.fields
      && (m.Some? && key in rows && ValidFor(env, m.value, rows[key]) ==>
            t.fields[key] == Effective(env, m.value, rows[key]))
      && (m.None? || key !in rows || !ValidFor(env, m.value, rows[key]) ==>
            t.fields[key] == env.defaults.fields[key])
  {
    hide ValidFor, Effective, Restart, Seeded;
    RestartField(env, rows, key);
  }

  /** A source takes over when the key's own value is empty or 0. */
  lemma SeededExactly(env: Env, rows: Rows, i: nat)
    requires i < |SEEDS| && SEEDS[i].0 in env.defaults.fields && SEEDS[i].1 in env.defaults.fields
    ensures var t, own := Restart(env, rows, true), Fresh(env, rows, SEEDS[i].0);
      SEEDS[i].0 in t.fields &&
      t.fields[SEEDS[i].0] == if own == Text("") || own == Num(0) then Fresh(env, rows, SEEDS[i].1) else own
  {
    RestartSeeded(env, rows, i);
    hide Restart, Fresh, SEEDS;
  }
}
