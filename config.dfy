/**
 * `load_config` of the Senegocia, Mercado Público and Facebook bots. Each
 * bot reads its credentials, the sheet id, the price-list path and the
 * datasheet directory from the environment, then consults `config.toml`:
 * a credential or the sheet id is taken from the file only when the
 * environment value is missing or empty, while the two paths are replaced by
 * the file's value whenever the file has one.
 */
module BotConfig {
  import opened Wrappers

  /** The bots that have a `load_config`. */
  datatype Bot = Senegocia | MercadoPublico | Facebook

  /** The environment variable holding the bot's user. */
  function UserKey(b: Bot): string
  {
    match b
    case Senegocia => "SENEGOCIA_USER"
    case MercadoPublico => "MP_USER"
    case Facebook => "FB_USER"
  }

  /** The environment variable holding the bot's password. */
  function PassKey(b: Bot): string
  {
    match b
    case Senegocia => "SENEGOCIA_PASS"
    case MercadoPublico => "MP_PASS"
    case Facebook => "FB_PASS"
  }

  /** The `config.toml` table holding the bot's `user` and `pass`. */
  function Section(b: Bot): string
  {
    match b
    case Senegocia => "senegocia"
    case MercadoPublico => "mp"
    case Facebook => "facebook"
  }

  const SheetsKey := "SHEETS_ID"
  const PriceListKey := "PRICE_LIST_PATH"
  const TechSheetKey := "TECH_SHEET_DIR"
  const DefaultPriceList := "data/lista_precios.csv"
  const DefaultTechSheetDir := "fichas_tecnicas"

  /** The environment, as `os.environ` holds it after `load_dotenv()`. */
  type Env = map<string, string>

  /** A parsed `config.toml`: tables of string values. */
  type Toml = map<string, map<string, string>>

  /** The resulting `cfg` dict; a None value is Python's `None`. */
  type Config = map<string, Option<string>>

  /** `os.getenv(key)` */
  function Getenv(env: Env, key: string): Option<string>
  {
    if key in env then Some(env[key]) else None
  }

  /** `os.getenv(key, default)` */
  function GetenvOr(env: Env, key: string, default: string): string
  {
    if key in env then env[key] else default
  }

  /** `table.get(field)` */
  function Get(table: map<string, string>, field: string): Option<string>
  {
    if field in table then Some(table[field]) else None
  }

  /** Python truthiness of an optional string: present and non-empty. */
  predicate Truthy(v: Option<string>)
  {
    v.Some? && v.value != ""
  }

  /** `a or b` */
  function Or(a: Option<string>, b: Option<string>): (r: Option<string>)
    ensures Truthy(a) ==> r == a
    ensures !Truthy(a) ==> r == b
  {
    if Truthy(a) then a else b
  }

  /** The configuration from the environment alone. */
  function FromEnv(b: Bot, env: Env): Config
  {
    map[UserKey(b) := Getenv(env, UserKey(b)),
        PassKey(b) := Getenv(env, PassKey(b)),
        SheetsKey := Getenv(env, SheetsKey),
        PriceListKey := Some(GetenvOr(env, PriceListKey, DefaultPriceList)),
        TechSheetKey := Some(GetenvOr(env, TechSheetKey, DefaultTechSheetDir))]
  }

  /** A value the environment may supply and `[table].field` backs up. */
  function Fallback(env: Env, key: string, data: Toml, table: string, field: string): Option<string>
  {
    if table in data then Or(Getenv(env, key), Get(data[table], field)) else Getenv(env, key)
  }

  /** A path `[table].field` replaces whenever it is present. */
  function Override(current: Option<string>, data: Toml, table: string, field: string): Option<string>
  {
    if table in data && field in data[table] then Some(data[table][field]) else current
  }

  /**
   * The configuration a bot ends up with. The file is read only when it
   * exists and `tomllib` could be imported.
   */
  function Merged(b: Bot, env: Env, fileExists: bool, hasTomllib: bool, data: Toml): Config
  {
    var base := FromEnv(b, env);
    if !(fileExists && hasTomllib) then base
    else
      base[UserKey(b) := Fallback(env, UserKey(b), data, Section(b), "user")]
          [PassKey(b) := Fallback(env, PassKey(b), data, Section(b), "pass")]
          [SheetsKey := Fallback(env, SheetsKey, data, "sheets", "sheet_id")]
          [PriceListKey := Override(base[PriceListKey], data, "data", "price_list_path")]
          [TechSheetKey := Override(base[TechSheetKey], data, "files", "tech_sheet_dir")]
  }

  /**
   * The precedence rules: a non-empty environment value wins for the
   * credentials and the sheet id, the file's table backs it up, the file's
   * paths override, and without the file only the environment counts.
   */
  lemma Precedence(b: Bot, env: Env, fileExists: bool, hasTomllib: bool, data: Toml)
    ensures Merged(b, env, fileExists, hasTomllib, data).Keys == {UserKey(b), PassKey(b), SheetsKey, PriceListKey, TechSheetKey}
    // a non-empty environment value always wins
    ensures Truthy(Getenv(env, UserKey(b))) ==> Merged(b, env, fileExists, hasTomllib, data)[UserKey(b)] == Some(env[UserKey(b)])
    ensures Truthy(Getenv(env, PassKey(b))) ==> Merged(b, env, fileExists, hasTomllib, data)[PassKey(b)] == Some(env[PassKey(b)])
    ensures Truthy(Getenv(env, SheetsKey)) ==> Merged(b, env, fileExists, hasTomllib, data)[SheetsKey] == Some(env[SheetsKey])
    // otherwise the file's table is consulted, if it is read and has the table
    ensures fileExists && hasTomllib && Section(b) in data && !Truthy(Getenv(env, UserKey(b)))
            ==> Merged(b, env, fileExists, hasTomllib, data)[UserKey(b)] == Get(data[Section(b)], "user")
    ensures fileExists && hasTomllib && Section(b) in data && !Truthy(Getenv(env, PassKey(b)))
            ==> Merged(b, env, fileExists, hasTomllib, data)[PassKey(b)] == Get(data[Section(b)], "pass")
    ensures fileExists && hasTomllib && "sheets" in data && !Truthy(Getenv(env, SheetsKey))
            ==> Merged(b, env, fileExists, hasTomllib, data)[SheetsKey] == Get(data["sheets"], "sheet_id")
    // the file's paths override the environment and the defaults
    ensures fileExists && hasTomllib && "data" in data && "price_list_path" in data["data"]
            ==> Merged(b, env, fileExists, hasTomllib, data)[PriceListKey] == Some(data["data"]["price_list_path"])
    ensures fileExists && hasTomllib && "files" in data && "tech_sheet_dir" in data["files"]
            ==> Merged(b, env, fileExists, hasTomllib, data)[TechSheetKey] == Some(data["files"]["tech_sheet_dir"])
    // a path the file does not set comes from the environment or its default
    ensures !(fileExists && hasTomllib && "data" in data && "price_list_path" in data["data"])
            ==> Merged(b, env, fileExists, hasTomllib, data)[PriceListKey] == Some(GetenvOr(env, PriceListKey, DefaultPriceList))
    ensures !(fileExists && hasTomllib && "files" in data && "tech_sheet_dir" in data["files"])
            ==> Merged(b, env, fileExists, hasTomllib, data)[TechSheetKey] == Some(GetenvOr(env, TechSheetKey, DefaultTechSheetDir))
    // a credential or the sheet id without its table read is the environment value as is
    ensures !(fileExists && hasTomllib && Section(b) in data)
            ==> Merged(b, env, fileExists, hasTomllib, data)[UserKey(b)] == Getenv(env, UserKey(b))
    ensures !(fileExists && hasTomllib && Section(b) in data)
            ==> Merged(b, env, fileExists, hasTomllib, data)[PassKey(b)] == Getenv(env, PassKey(b))
    ensures !(fileExists && hasTomllib && "sheets" in data)
            ==> Merged(b, env, fileExists, hasTomllib, data)[SheetsKey] == Getenv(env, SheetsKey)
    // the two paths always have a value
    ensures Merged(b, env, fileExists, hasTomllib, data)[PriceListKey].Some? && Merged(b, env, fileExists, hasTomllib, data)[TechSheetKey].Some?
    // without the file, only the environment counts
    ensures !(fileExists && hasTomllib) ==> Merged(b, env, fileExists, hasTomllib, data) == FromEnv(b, env)
  {
    KeysDistinct(b);
    if fileExists && hasTomllib {
      MergedEntries(b, env, data);
    }
  }

  /** Once the file is read, each key holds its own rule's value. */
  lemma MergedEntries(b: Bot, env: Env, data: Toml)
    ensures var m := Merged(b, env, true, true, data);
            && m[UserKey(b)] == Fallback(env, UserKey(b), data, Section(b), "user")
            && m[PassKey(b)] == Fallback(env, PassKey(b), data, Section(b), "pass")
            && m[SheetsKey] == Fallback(env, SheetsKey, data, "sheets", "sheet_id")
            && m[PriceListKey] == Override(Some(GetenvOr(env, PriceListKey, DefaultPriceList)), data, "data", "price_list_path")
            && m[TechSheetKey] == Override(Some(GetenvOr(env, TechSheetKey, DefaultTechSheetDir)), data, "files", "tech_sheet_dir")
  {
    KeysDistinct(b);
  }

  /** `cfg['PRICE_LIST_PATH']`, which always holds a path. */
  function PriceListPath(b: Bot, env: Env, fileExists: bool, hasTomllib: bool, data: Toml): (path: string)
    ensures Merged(b, env, fileExists, hasTomllib, data)[PriceListKey] == Some(path)
  {
    Precedence(b, env, fileExists, hasTomllib, data);
    Merged(b, env, fileExists, hasTomllib, data)[PriceListKey].value
  }

  /** `cfg['TECH_SHEET_DIR']`, which always holds a path. */
  function TechSheetDir(b: Bot, env: Env, fileExists: bool, hasTomllib: bool, data: Toml): (dir: string)
    ensures Merged(b, env, fileExists, hasTomllib, data)[TechSheetKey] == Some(dir)
  {
    Precedence(b, env, fileExists, hasTomllib, data);
    Merged(b, env, fileExists, hasTomllib, data)[TechSheetKey].value
  }

  /** A path stays at its default when neither the environment nor the file read sets it. */
  lemma PathDefaults(b: Bot, env: Env, fileExists: bool, hasTomllib: bool, data: Toml)
    ensures PriceListKey !in env && !(fileExists && hasTomllib && "data" in data && "price_list_path" in data["data"])
            ==> Merged(b, env, fileExists, hasTomllib, data)[PriceListKey] == Some("data/lista_precios.csv")
    ensures TechSheetKey !in env && !(fileExists && hasTomllib && "files" in data && "tech_sheet_dir" in data["files"])
            ==> Merged(b, env, fileExists, hasTomllib, data)[TechSheetKey] == Some("fichas_tecnicas")
  {
  }

  /** An environment value that is set but empty survives when the file has no table for it. */
  lemma EmptyValueKept(b: Bot, env: Env, fileExists: bool, hasTomllib: bool, data: Toml)
    requires UserKey(b) in env && env[UserKey(b)] == ""
    requires Section(b) !in data
    ensures Merged(b, env, fileExists, hasTomllib, data)[UserKey(b)] == Some("")
  {
  }

  /** The five keys are different, so no write to `cfg` clobbers another. */
  lemma KeysDistinct(b: Bot)
    ensures UserKey(b) != PassKey(b) && UserKey(b) != SheetsKey && UserKey(b) != PriceListKey && UserKey(b) != TechSheetKey
    ensures PassKey(b) != SheetsKey && PassKey(b) != PriceListKey && PassKey(b) != TechSheetKey
    ensures SheetsKey != PriceListKey && SheetsKey != TechSheetKey && PriceListKey != TechSheetKey
  {
  }

  /** The dict is filled in the order the source writes it. */
  method LoadConfig(b: Bot, env: Env, fileExists: bool, hasTomllib: bool, data: Toml) returns (cfg: Config)
    ensures cfg == Merged(b, env, fileExists, hasTomllib, data)
  {
    KeysDistinct(b);
    cfg := map[];
    cfg := cfg[UserKey(b) := Getenv(env, UserKey(b))];
    cfg := cfg[PassKey(b) := Getenv(env, PassKey(b))];
    cfg := cfg[SheetsKey := Getenv(env, SheetsKey)];
    cfg := cfg[PriceListKey := Some(GetenvOr(env, PriceListKey, DefaultPriceList))];
    cfg := cfg[TechSheetKey := Some(GetenvOr(env, TechSheetKey, DefaultTechSheetDir))];
    assert cfg == FromEnv(b, env);
    if fileExists && hasTomllib {
      cfg := ReadToml(b, env, data, cfg);
    }
  }

  /** The block run once `config.toml` is open: each table present updates its keys. */
  method ReadToml(b: Bot, env: Env, data: Toml, base: Config) returns (cfg: Config)
    requires base == FromEnv(b, env)
    ensures cfg == Merged(b, env, true, true, data)
  {
    KeysDistinct(b);
    cfg := ReadCredentials(env, data, base, Section(b), UserKey(b), PassKey(b));
    cfg := ReadSheets(env, data, cfg);
    cfg := ReadPath(cfg, PriceListKey, data, "data", "price_list_path");
    cfg := ReadPath(cfg, TechSheetKey, data, "files", "tech_sheet_dir");
  }

  /** The bot's own table, `table`, backs up its user and password. */
  method ReadCredentials(env: Env, data: Toml, base: Config, table: string, userKey: string, passKey: string)
    returns (cfg: Config)
    requires userKey != passKey && userKey in base && passKey in base
    requires base[userKey] == Getenv(env, userKey) && base[passKey] == Getenv(env, passKey)
    ensures cfg == base[userKey := Fallback(env, userKey, data, table, "user")]
                       [passKey := Fallback(env, passKey, data, table, "pass")]
  {
    cfg := base;
    if table in data {
      var section := data[table];
      cfg := cfg[userKey := Or(cfg[userKey], Get(section, "user"))];
      cfg := cfg[passKey := Or(cfg[passKey], Get(section, "pass"))];
    }
  }

  /** The `[sheets]` table backs up the sheet id. */
  method ReadSheets(env: Env, data: Toml, base: Config) returns (cfg: Config)
    requires SheetsKey in base && base[SheetsKey] == Getenv(env, SheetsKey)
    ensures cfg == base[SheetsKey := Fallback(env, SheetsKey, data, "sheets", "sheet_id")]
  {
    cfg := base;
    if "sheets" in data {
      cfg := cfg[SheetsKey := Or(cfg[SheetsKey], Get(data["sheets"], "sheet_id"))];
    }
  }

  /** `[table].field`, when present, replaces the path under `key`. */
  method ReadPath(base: Config, key: string, data: Toml, table: string, field: string) returns (cfg: Config)
    requires key in base
    ensures cfg == base[key := Override(base[key], data, table, field)]
  {
    cfg := base;
    if table in data {
      cfg := cfg[key := if field in data[table] then Some(data[table][field]) else cfg[key]];
    }
  }
}
