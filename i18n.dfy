/**
 * Message lookup: three constant tables (English, Portuguese, Spanish), a language
 * fallback, a key fallback, and `{name}` placeholder substitution.
 */
module I18n {
  import opened Wrappers
  import opened Text

  const DefaultLang: string := "en"

  /** `lang in dicts`. */
  predicate HasTable(lang: string) {
    lang == "en" || lang == "pt" || lang == "es"
  }

  /** The table entry for `key`, if the table of `lang` has one. */
  function Entry(lang: string, key: string): Option<string>
    requires HasTable(lang)
  {
    if lang == "en" then EnEntry(key) else if lang == "pt" then PtEntry(key) else EsEntry(key)
  }

  /** `dicts[l][key] || key`, where `l` is `lang` if there is a table for it and "en" otherwise. */
  function Lookup(lang: string, key: string): (s: string)
    ensures key != "" ==> s != ""
  {
    var l := if HasTable(lang) then lang else DefaultLang;
    match Entry(l, key)
    case Some(v) => if v != "" then v else key
    case None => key
  }

  /** The text a `{name}` placeholder is written as. */
  function Placeholder(name: string): (p: string)
    ensures |p| >= 2
  {
    "{" + name + "}"
  }

  /**
   * The replacement text `String.prototype.replace` inserts for one match of `m` at
   * `pos` in `s`, given the replacement `v`: `$$`, `$&`, `$``, `$'` are expanded;
   * a pattern without capture groups leaves every other `$` as it is.
   */
  function Expand(v: string, s: string, pos: nat, m: string): string
    requires pos + |m| <= |s|
  {
    if |v| == 0 then ""
    else if v[0] == '$' && |v| >= 2 && v[1] == '$' then "$" + Expand(v[2..], s, pos, m)
    else if v[0] == '$' && |v| >= 2 && v[1] == '&' then m + Expand(v[2..], s, pos, m)
    else if v[0] == '$' && |v| >= 2 && v[1] == '`' then s[..pos] + Expand(v[2..], s, pos, m)
    else if v[0] == '$' && |v| >= 2 && v[1] == '\'' then s[pos + |m|..] + Expand(v[2..], s, pos, m)
    else [v[0]] + Expand(v[1..], s, pos, m)
  }

  /** The part of `s.replace(/p/g, v)` that comes from `s[k..]`. */
  function ReplaceAllFrom(s: string, p: string, v: string, k: nat): string
    requires |p| > 0 && k <= |s|
    decreases |s| - k
  {
    var i := IndexFrom(s, p, k);
    if i < 0 then s[k..] else s[k..i] + Expand(v, s, i, p) + ReplaceAllFrom(s, p, v, i + |p|)
  }

  /** `s.replace(new RegExp(p, "g"), v)` for a pattern `p` that matches only its own text. */
  function ReplaceAll(s: string, p: string, v: string): string
    requires |p| > 0
  {
    ReplaceAllFrom(s, p, v, 0)
  }

  /** The placeholders of `params`, substituted one parameter after the other. */
  function Substitute(s: string, params: seq<(string, string)>): string {
    if |params| == 0 then s
    else
      var last := params[|params| - 1];
      ReplaceAll(Substitute(s, params[..|params| - 1]), Placeholder(last.0), last.1)
  }

  /** What `t(lang, key, params)` returns. */
  function Translate(lang: string, key: string, params: seq<(string, string)>): string {
    Substitute(Lookup(lang, key), params)
  }

  /** `t`: the looked-up entry, then one `replace` per parameter, in order. */
  method T(lang: string, key: string, params: seq<(string, string)>) returns (s: string)
    ensures s == Translate(lang, key, params)
    ensures |params| == 0 ==> s == Lookup(lang, key)
  {
    s := Lookup(lang, key);
    for i := 0 to |params|
      invariant s == Substitute(Lookup(lang, key), params[..i])
    {
      assert params[..i + 1][..i] == params[..i];
      s := ReplaceAll(s, Placeholder(params[i].0), params[i].1);
    }
    assert params[..|params|] == params;
  }

  lemma {:induction false} ExpandPlain(v: string, s: string, pos: nat, m: string)
    requires pos + |m| <= |s|
    requires forall j :: 0 <= j < |v| ==> v[j] != '$'
    ensures Expand(v, s, pos, m) == v
  {
    if |v| > 0 {
      ExpandPlain(v[1..], s, pos, m);
    }
  }

  /** Searching from `k` is searching the suffix `s[k..]`, shifted by `k`. */
  lemma IndexFromShift(s: string, p: string, k: nat)
    requires k <= |s|
    ensures var i := IndexOf(s[k..], p);
      IndexFrom(s, p, k) == if i < 0 then -1 else i + k
  {
    var t := s[k..];
    var i := IndexOf(t, p);
    var r := IndexFrom(s, p, k);
    forall j | 0 <= j ensures OccursAt(t, p, j) <==> OccursAt(s, p, j + k) {
      if j + |p| <= |t| {
        assert t[j..j + |p|] == s[j + k..j + k + |p|];
      }
    }
    if r >= 0 {
      assert OccursAt(t, p, r - k);
    }
    if i >= 0 {
      assert OccursAt(s, p, i + k);
    }
  }

  /** One step of `SplitOn`, for a separator found at `i` in the suffix from `k`; `rest` is the split after it. */
  lemma SplitOnStep(s: string, p: string, k: nat, i: int, rest: seq<string>)
    requires |p| > 0 && k <= |s|
    requires i >= 0 && IndexFrom(s, p, k) == i && i + |p| <= |s|
    requires rest == SplitOn(s[i + |p|..], p)
    ensures SplitOn(s[k..], p) == [s[k..i]] + rest
  {
    var t := s[k..];
    assert IndexOf(t, p) == i - k by {
      IndexFromShift(s, p, k);
    }
    var b := t[i - k + |p|..];
    assert b == s[i + |p|..];
    SplitOnFound(t, p, i - k, rest);
    assert t[..i - k] == s[k..i];
  }

  /** `split` at a separator found at `i`: the part before it, then `rest`, the split of what follows. */
  lemma SplitOnFound(t: string, p: string, i: int, rest: seq<string>)
    requires |p| > 0 && i >= 0 && IndexOf(t, p) == i && i + |p| <= |t|
    requires rest == SplitOn(t[i + |p|..], p)
    ensures SplitOn(t, p) == [t[..i]] + rest
  {
  }

  /** Replacing from `k` when a placeholder is found at `i`, with a value free of `$`: the text before it, the value, and `r`, the replacement of the rest. */
  lemma ReplaceAllFromStep(s: string, p: string, v: string, k: nat, i: int, r: string)
    requires |p| > 0 && k <= |s| && i == IndexFrom(s, p, k) && i >= 0 && i + |p| <= |s|
    requires forall j :: 0 <= j < |v| ==> v[j] != '$'
    requires r == ReplaceAllFrom(s, p, v, i + |p|)
    ensures ReplaceAllFrom(s, p, v, k) == s[k..i] + v + r
  {
    var e := Expand(v, s, i, p);
    ReplaceAllFromFound(s, p, v, k, i, e, r);
    assert e == v by {
      ExpandPlain(v, s, i, p);
    }
  }

  /** Replacing from `k` when a placeholder is found at `i`: the text before it, `e`, the expanded value, and `r`, the replacement of the rest. */
  lemma ReplaceAllFromFound(s: string, p: string, v: string, k: nat, i: int, e: string, r: string)
    requires |p| > 0 && k <= |s| && i == IndexFrom(s, p, k) && i >= 0 && i + |p| <= |s|
    requires e == Expand(v, s, i, p) && r == ReplaceAllFrom(s, p, v, i + |p|)
    ensures ReplaceAllFrom(s, p, v, k) == s[k..i] + e + r
  {
  }

  /** The parts of `s[k..]` between occurrences of `p`, found by searching `s` from `k` as `ReplaceAllFrom` does. */
  function SplitFrom(s: string, p: string, k: nat): (r: seq<string>)
    requires |p| > 0 && k <= |s|
    ensures |r| >= 1
    decreases |s| - k
  {
    var i := IndexFrom(s, p, k);
    if i < 0 then [s[k..]] else [s[k..i]] + SplitFrom(s, p, i + |p|)
  }

  /** The parts from `k` when `p` is found at `i`: the part before it, then `rest`, the parts after it. */
  lemma SplitFromStep(s: string, p: string, k: nat, i: int, rest: seq<string>)
    requires |p| > 0 && k <= |s| && i == IndexFrom(s, p, k) && i >= 0 && i + |p| <= |s|
    requires rest == SplitFrom(s, p, i + |p|)
    ensures SplitFrom(s, p, k) == [s[k..i]] + rest
  {
  }

  /** With no `p` from `k` on, both splits give the whole suffix as their one part. */
  lemma SplitOnNoMatch(s: string, p: string, k: nat)
    requires |p| > 0 && k <= |s| && IndexFrom(s, p, k) < 0
    ensures SplitOn(s[k..], p) == [s[k..]] == SplitFrom(s, p, k)
  {
    IndexFromShift(s, p, k);
  }

  /** Splitting the suffix from `k` is splitting `s` from `k`. */
  lemma {:induction false} SplitFromIsSplitOn(s: string, p: string, k: nat)
    requires |p| > 0 && k <= |s|
    ensures SplitOn(s[k..], p) == SplitFrom(s, p, k)
    decreases |s| - k
  {
    var i := IndexFrom(s, p, k);
    if i >= 0 {
      var j := i + |p|;
      var x, y := SplitOn(s[j..], p), SplitFrom(s, p, j);
      SplitFromStep(s, p, k, i, y);
      SplitOnStep(s, p, k, i, x);
      SplitFromIsSplitOn(s, p, j);
    } else {
      SplitOnNoMatch(s, p, k);
    }
  }

  /** With a value free of `$`, replacing from `k` joins the parts from `k` with the value. */
  lemma {:induction false} ReplaceAllIsJoinFrom(s: string, p: string, v: string, k: nat)
    requires |p| > 0 && k <= |s|
    requires forall j :: 0 <= j < |v| ==> v[j] != '$'
    ensures ReplaceAllFrom(s, p, v, k) == Join(SplitFrom(s, p, k), v)
    decreases |s| - k
  {
    var i := IndexFrom(s, p, k);
    if i >= 0 {
      var j := i + |p|;
      var r, parts := ReplaceAllFrom(s, p, v, j), SplitFrom(s, p, j);
      ReplaceAllFromStep(s, p, v, k, i, r);
      SplitFromStep(s, p, k, i, parts);
      ReplaceAllIsJoinFrom(s, p, v, j);
      JoinCons(s[k..i], parts, v);
    }
  }

  /**
   * With a value free of `$`, replacing every placeholder is `split` followed by `join`:
   * every occurrence, and nothing else, becomes the value.
   */
  lemma ReplaceAllIsSplitJoin(s: string, p: string, v: string, k: nat)
    requires |p| > 0 && k <= |s|
    requires forall j :: 0 <= j < |v| ==> v[j] != '$'
    ensures ReplaceAllFrom(s, p, v, k) == Join(SplitOn(s[k..], p), v)
  {
    ReplaceAllIsJoinFrom(s, p, v, k);
    SplitFromIsSplitOn(s, p, k);
  }

  /** A table with no entry for a language is never used: the English one stands in. */
  lemma LookupFallsBackToEnglish(lang: string, key: string)
    requires !HasTable(lang)
    ensures Lookup(lang, key) == Lookup(DefaultLang, key)
  {
  }

  /** A text without the placeholder comes back unchanged: placeholders without a parameter stay literal. */
  lemma ReplaceAllAbsent(s: string, p: string, v: string)
    requires |p| > 0 && !Contains(s, p)
    ensures ReplaceAll(s, p, v) == s
  {
  }

  /** The prompt messages looked up without a table entry come back as their own key. */
  lemma MissingKeysComeBackAsKeys(lang: string)
    ensures Lookup(lang, "commit.validation.required") == "commit.validation.required"
    ensures Lookup(lang, "commit.validation.yesNo") == "commit.validation.yesNo"
  {
  }

  /** The Portuguese table has the English table's keys. */
  lemma SameKeysPt(key: string)
    ensures EnEntry(key).Some? <==> PtEntry(key).Some?
  {
  }

  /** The Spanish table has the English table's keys. */
  lemma SameKeysEs(key: string)
    ensures EnEntry(key).Some? <==> EsEntry(key).Some?
  {
  }

  /**
   * A key whose entry in each table holds the placeholder of `name` (at `ke`,
   * `kp` and `ks`) keeps that placeholder whatever the language asked for.
   */
  lemma KeyPlaceholder(lang: string, key: string, name: string, en: string, pt: string, es: string,
                       ke: int, kp: int, ks: int)
    requires HasTable(lang)
    requires EnEntry(key) == Some(en) && PtEntry(key) == Some(pt) && EsEntry(key) == Some(es)
    requires OccursAt(en, Placeholder(name), ke) && OccursAt(pt, Placeholder(name), kp)
    requires OccursAt(es, Placeholder(name), ks)
    ensures Contains(Lookup(lang, key), Placeholder(name))
  {
    OccursContained(en, Placeholder(name), ke);
    OccursContained(pt, Placeholder(name), kp);
    OccursContained(es, Placeholder(name), ks);
  }

  /** The invalid-type message carries `{type}` in every table. */
  lemma TypeInvalidPlaceholder(lang: string)
    requires HasTable(lang)
    ensures Contains(Lookup(lang, "rules.typeInvalid"), Placeholder("type"))
  {
    TypeInvalidEntries();
    KeyPlaceholder(lang, "rules.typeInvalid", "type", "invalid type: {type}", "type inválido: {type}", "tipo inválido: {type}", 14, 15, 15);
  }

  /** The three table entries the placeholder lemma above relies on. */
  lemma TypeInvalidEntries()
    ensures EnEntry("rules.typeInvalid") == Some("invalid type: {type}")
    ensures PtEntry("rules.typeInvalid") == Some("type inválido: {type}")
    ensures EsEntry("rules.typeInvalid") == Some("tipo inválido: {type}")
  {
  }

  /** The invalid-scope message carries `{scope}` in every table. */
  lemma ScopeInvalidPlaceholder(lang: string)
    requires HasTable(lang)
    ensures Contains(Lookup(lang, "rules.scopeInvalid"), Placeholder("scope"))
  {
    ScopeInvalidEntries();
    KeyPlaceholder(lang, "rules.scopeInvalid", "scope", "invalid scope: {scope}", "scope inválido: {scope}", "scope inválido: {scope}", 15, 16, 16);
  }

  /** The three table entries the placeholder lemma above relies on. */
  lemma ScopeInvalidEntries()
    ensures EnEntry("rules.scopeInvalid") == Some("invalid scope: {scope}")
    ensures PtEntry("rules.scopeInvalid") == Some("scope inválido: {scope}")
    ensures EsEntry("rules.scopeInvalid") == Some("scope inválido: {scope}")
  {
  }

  /** The subject-too-long warning carries `{max}` in every table. */
  lemma SubjectTooLongPlaceholder(lang: string)
    requires HasTable(lang)
    ensures Contains(Lookup(lang, "rules.subjectTooLong"), Placeholder("max"))
  {
    SubjectTooLongEntries();
    KeyPlaceholder(lang, "rules.subjectTooLong", "max", "subject exceeds {max} characters", "subject excede {max} caracteres", "subject excede {max} caracteres", 16, 15, 15);
  }

  /** The three table entries the placeholder lemma above relies on. */
  lemma SubjectTooLongEntries()
    ensures EnEntry("rules.subjectTooLong") == Some("subject exceeds {max} characters")
    ensures PtEntry("rules.subjectTooLong") == Some("subject excede {max} caracteres")
    ensures EsEntry("rules.subjectTooLong") == Some("subject excede {max} caracteres")
  {
  }

  /** The unknown-footer warning carries `{key}` in every table. */
  lemma FooterUnknownPlaceholder(lang: string)
    requires HasTable(lang)
    ensures Contains(Lookup(lang, "rules.footerUnknown"), Placeholder("key"))
  {
    FooterUnknownEntries();
    KeyPlaceholder(lang, "rules.footerUnknown", "key", "unknown footer: {key}", "footer desconhecido: {key}", "footer desconocido: {key}", 16, 21, 20);
  }

  /** The three table entries the placeholder lemma above relies on. */
  lemma FooterUnknownEntries()
    ensures EnEntry("rules.footerUnknown") == Some("unknown footer: {key}")
    ensures PtEntry("rules.footerUnknown") == Some("footer desconhecido: {key}")
    ensures EsEntry("rules.footerUnknown") == Some("footer desconocido: {key}")
  {
  }

  /** An occurrence at a known position is contained. */
  lemma OccursContained(s: string, p: string, k: int)
    requires OccursAt(s, p, k)
    ensures Contains(s, p)
  {
    ContainsIff(s, p);
  }

  /** The English table (`dicts.en`). */
  function EnEntry(key: string): Option<string> {
    match key
    case "cli.help" => Some("commitzero CLI\n\nCommands:\n  init\n  lint --file <path> | -m <message>\n  check\n  install-hooks\n  uninstall-hooks\n  commit [-a|--add] [-p|--push]\n\nOptions:\n  --help")
    case "cli.provideInput" => Some("Provide --file <path> or -m <message>")
    case "cli.invalid" => Some("Invalid commit:")
    case "cli.warnings" => Some("Warnings:")
    case "cli.warning" => Some("Warning: {msg}")
    case "cli.valid" => Some("Valid commit")
    case "cli.readEditmsgError" => Some("Could not read COMMIT_EDITMSG")
    case "cli.hooksInstalled" => Some("Hooks installed at .git/hooks")
    case "cli.hooksRemoved" => Some("Managed blocks removed from hooks")
    case "cli.allowedTypes" => Some("Allowed types: {types}")
    case "cli.exampleValid" => Some("Valid example: {example}")
    case "cli.exampleSubject" => Some("add feature")
    case "cli.flagsOnlyWithCommit" => Some("Flags -a/--add and -p/--push are only valid with the 'commit' subcommand.")
    case "commit.select.type" => Some("Select commit type:")
    case "commit.library.header" => Some("Library: {name}")
    case "commit.chosen.type" => Some("Chosen type: {type}")
    case "commit.prompt.type" => Some("Type ({types}): ")
    case "commit.prompt.scope" => Some("Scope (optional, empty for none): ")
    case "commit.prompt.subject" => Some("Subject (short, imperative): ")
    case "commit.prompt.body" => Some("Body (optional, multi-line not supported; press Enter to skip): ")
    case "commit.prompt.breaking" => Some("Breaking change? (y/N): ")
    case "commit.created" => Some("Commit message created at .git/COMMIT_EDITMSG:\n\n{msg}")
    case "commit.git.askAdd" => Some("No files are staged. Run 'git add -A' now? (y/N): ")
    case "commit.git.abort" => Some("Nothing to commit. Aborting.")
    case "commit.cancelled" => Some("Process cancelled by user.")
    case "type.desc.feat" => Some("A new feature")
    case "type.desc.fix" => Some("A bug fix")
    case "type.desc.docs" => Some("Documentation only changes")
    case "type.desc.style" => Some("Changes that do not affect the meaning of the code (white-space, formatting, missing semi-colons, etc)")
    case "type.desc.refactor" => Some("A code change that neither fixes a bug nor adds a feature")
    case "type.desc.perf" => Some("A code change that improves performance")
    case "type.desc.test" => Some("Adding missing tests or correcting existing tests")
    case "type.desc.build" => Some("Changes that affect the build system or external dependencies")
    case "type.desc.ci" => Some("Changes to CI configuration files and scripts")
    case "type.desc.chore" => Some("Other changes that don't modify src or test files")
    case "type.desc.revert" => Some("Reverts a previous commit")
    case "init.exists" => Some("commitzero.config.json already exists, nothing to do.")
    case "init.created" => Some("File commitzero.config.json created with defaults.")
    case "rules.typeInvalid" => Some("invalid type: {type}")
    case "rules.typeLower" => Some("type must be lowercase")
    case "rules.scopeRequired" => Some("scope is required")
    case "rules.scopeInvalid" => Some("invalid scope: {scope}")
    case "rules.scopePattern" => Some("scope must contain only a-z, 0-9, hyphen and space")
    case "rules.scopeLower" => Some("scope must be lowercase")
    case "rules.subjectEmpty" => Some("subject must not be empty")
    case "rules.subjectTooLong" => Some("subject exceeds {max} characters")
    case "rules.subjectPeriod" => Some("subject must not end with a period")
    case "rules.blankHeaderBody" => Some("blank line required between header and body")
    case "rules.blankBeforeFooters" => Some("blank line required before footers")
    case "rules.breakingNotAllowed" => Some("BREAKING CHANGE not allowed by configuration")
    case "rules.breakingRequiresFooter" => Some("BREAKING CHANGE requires 'BREAKING CHANGE' footer with details")
    case "rules.footerUnknown" => Some("unknown footer: {key}")
    case _ => None
  }

  /** The Portuguese table (`dicts.pt`). */
  function PtEntry(key: string): Option<string> {
    match key
    case "cli.help" => Some("commitzero CLI\n\nComandos:\n  init\n  lint --file <path> | -m <message>\n  check\n  install-hooks\n  uninstall-hooks\n  commit [-a|--add] [-p|--push]\n\nOpções:\n  --help")
    case "cli.provideInput" => Some("Forneça --file <path> ou -m <message>")
    case "cli.invalid" => Some("Commit inválido:")
    case "cli.warnings" => Some("Avisos:")
    case "cli.warning" => Some("Aviso: {msg}")
    case "cli.valid" => Some("Commit válido")
    case "cli.readEditmsgError" => Some("Não foi possível ler COMMIT_EDITMSG")
    case "cli.hooksInstalled" => Some("Hooks instalados em .git/hooks")
    case "cli.hooksRemoved" => Some("Blocos gerenciados removidos dos hooks")
    case "cli.allowedTypes" => Some("Tipos permitidos: {types}")
    case "cli.exampleValid" => Some("Exemplo válido: {example}")
    case "cli.exampleSubject" => Some("adicionar recurso")
    case "cli.flagsOnlyWithCommit" => Some("As flags -a/--add e -p/--push são válidas apenas com o subcomando 'commit'.")
    case "commit.select.type" => Some("Selecione o tipo de commit:")
    case "commit.library.header" => Some("Biblioteca: {name}")
    case "commit.chosen.type" => Some("Tipo escolhido: {type}")
    case "commit.prompt.type" => Some("Tipo ({types}): ")
    case "commit.prompt.scope" => Some("Escopo (opcional, vazio para nenhum): ")
    case "commit.prompt.subject" => Some("Assunto (curto, imperativo): ")
    case "commit.prompt.body" => Some("Corpo (opcional, multi-linha não suportado; enter para pular): ")
    case "commit.prompt.breaking" => Some("Breaking change? (y/N): ")
    case "commit.created" => Some("Mensagem de commit criada em .git/COMMIT_EDITMSG:\n\n{msg}")
    case "commit.git.askAdd" => Some("Nenhum arquivo está staged. Executar 'git add -A' agora? (y/N): ")
    case "commit.git.abort" => Some("Nada para cometer. Abortando.")
    case "commit.cancelled" => Some("Processo cancelado pelo usuário.")
    case "type.desc.feat" => Some("Uma nova funcionalidade")
    case "type.desc.fix" => Some("Correção de bug")
    case "type.desc.docs" => Some("Alterações apenas de documentação")
    case "type.desc.style" => Some("Alterações que não afetam o significado do código (espaços, formatação, ponto e vírgula, etc)")
    case "type.desc.refactor" => Some("Mudança de código que não corrige bug nem adiciona funcionalidade")
    case "type.desc.perf" => Some("Mudança de código que melhora desempenho")
    case "type.desc.test" => Some("Adicionar testes ausentes ou corrigir testes existentes")
    case "type.desc.build" => Some("Mudanças que afetam o sistema de build ou dependências externas")
    case "type.desc.ci" => Some("Mudanças na configuração e scripts de CI")
    case "type.desc.chore" => Some("Outras mudanças que não modificam arquivos de código ou testes")
    case "type.desc.revert" => Some("Reverte um commit anterior")
    case "init.exists" => Some("commitzero.config.json já existe, nada a fazer.")
    case "init.created" => Some("Arquivo commitzero.config.json criado com defaults.")
    case "rules.typeInvalid" => Some("type inválido: {type}")
    case "rules.typeLower" => Some("type deve ser minúsculo")
    case "rules.scopeRequired" => Some("scope é obrigatório")
    case "rules.scopeInvalid" => Some("scope inválido: {scope}")
    case "rules.scopePattern" => Some("scope deve conter apenas a-z, 0-9, hífen e espaço")
    case "rules.scopeLower" => Some("scope deve ser minúsculo")
    case "rules.subjectEmpty" => Some("subject não pode ser vazio")
    case "rules.subjectTooLong" => Some("subject excede {max} caracteres")
    case "rules.subjectPeriod" => Some("subject não deve terminar com ponto final")
    case "rules.blankHeaderBody" => Some("linha em branco requerida entre header e body")
    case "rules.blankBeforeFooters" => Some("linha em branco requerida antes dos footers")
    case "rules.breakingNotAllowed" => Some("BREAKING CHANGE não permitido pela configuração")
    case "rules.breakingRequiresFooter" => Some("BREAKING CHANGE requer footer 'BREAKING CHANGE' detalhando a mudança")
    case "rules.footerUnknown" => Some("footer desconhecido: {key}")
    case _ => None
  }

  /** The Spanish table (`dicts.es`). */
  function EsEntry(key: string): Option<string> {
    match key
    case "cli.help" => Some("commitzero CLI\n\nComandos:\n  init\n  lint --file <path> | -m <message>\n  check\n  install-hooks\n  uninstall-hooks\n  commit [-a|--add] [-p|--push]\n\nOpciones:\n  --help")
    case "cli.provideInput" => Some("Proporciona --file <path> o -m <message>")
    case "cli.invalid" => Some("Commit inválido:")
    case "cli.warnings" => Some("Advertencias:")
    case "cli.warning" => Some("Advertencia: {msg}")
    case "cli.valid" => Some("Commit válido")
    case "cli.readEditmsgError" => Some("No se pudo leer COMMIT_EDITMSG")
    case "cli.hooksInstalled" => Some("Hooks instalados en .git/hooks")
    case "cli.hooksRemoved" => Some("Bloques gestionados eliminados de los hooks")
    case "cli.allowedTypes" => Some("Tipos permitidos: {types}")
    case "cli.exampleValid" => Some("Ejemplo válido: {example}")
    case "cli.exampleSubject" => Some("agregar funcionalidad")
    case "cli.flagsOnlyWithCommit" => Some("Las opciones -a/--add y -p/--push solo son válidas con el subcomando 'commit'.")
    case "commit.select.type" => Some("Selecciona el tipo de commit:")
    case "commit.library.header" => Some("Biblioteca: {name}")
    case "commit.chosen.type" => Some("Tipo elegido: {type}")
    case "commit.prompt.type" => Some("Tipo ({types}): ")
    case "commit.prompt.scope" => Some("Alcance (opcional, vacío para ninguno): ")
    case "commit.prompt.subject" => Some("Asunto (corto, imperativo): ")
    case "commit.prompt.body" => Some("Cuerpo (opcional, multi-línea no soportada; presiona Enter para omitir): ")
    case "commit.prompt.breaking" => Some("¿Cambio rompedor? (y/N): ")
    case "commit.created" => Some("Mensaje de commit creado en .git/COMMIT_EDITMSG:\n\n{msg}")
    case "commit.git.askAdd" => Some("No hay archivos staged. ¿Ejecutar 'git add -A' ahora? (y/N): ")
    case "commit.git.abort" => Some("Nada para commitear. Abortando.")
    case "commit.cancelled" => Some("Proceso cancelado por el usuario.")
    case "type.desc.feat" => Some("Nueva funcionalidad")
    case "type.desc.fix" => Some("Corrección de bug")
    case "type.desc.docs" => Some("Cambios solo de documentación")
    case "type.desc.style" => Some("Cambios que no afectan el significado del código (espacios, formato, punto y coma, etc)")
    case "type.desc.refactor" => Some("Cambio de código que no corrige un bug ni agrega funcionalidad")
    case "type.desc.perf" => Some("Cambio de código que mejora el rendimiento")
    case "type.desc.test" => Some("Añadir pruebas faltantes o corregir pruebas existentes")
    case "type.desc.build" => Some("Cambios que afectan el sistema de build o dependencias externas")
    case "type.desc.ci" => Some("Cambios en la configuración y scripts de CI")
    case "type.desc.chore" => Some("Otros cambios que no modifican archivos de código o pruebas")
    case "type.desc.revert" => Some("Revierte un commit previo")
    case "init.exists" => Some("commitzero.config.json ya existe, nada que hacer.")
    case "init.created" => Some("Archivo commitzero.config.json creado con valores por defecto.")
    case "rules.typeInvalid" => Some("tipo inválido: {type}")
    case "rules.typeLower" => Some("type debe estar en minúsculas")
    case "rules.scopeRequired" => Some("scope es obligatorio")
    case "rules.scopeInvalid" => Some("scope inválido: {scope}")
    case "rules.scopePattern" => Some("scope debe contener solo a-z, 0-9, guion y espacio")
    case "rules.scopeLower" => Some("scope debe estar en minúsculas")
    case "rules.subjectEmpty" => Some("subject no puede estar vacío")
    case "rules.subjectTooLong" => Some("subject excede {max} caracteres")
    case "rules.subjectPeriod" => Some("subject no debe terminar con punto final")
    case "rules.blankHeaderBody" => Some("línea en blanco requerida entre encabezado y cuerpo")
    case "rules.blankBeforeFooters" => Some("línea en blanco requerida antes de los footers")
    case "rules.breakingNotAllowed" => Some("BREAKING CHANGE no permitido por la configuración")
    case "rules.breakingRequiresFooter" => Some("BREAKING CHANGE requiere el footer 'BREAKING CHANGE' con detalles")
    case "rules.footerUnknown" => Some("footer desconocido: {key}")
    case _ => None
  }
}
