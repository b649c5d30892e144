/** The plugin settings the injector reads, passed in as a record instead of
    being fetched from global state. A setting that is not configured is "". */
module Settings {

  datatype Config = Config(
    /** Attribute to prefer over `src` (e.g. `data-src`). */
    alternativeSrc: string,
    /** Attribute to write the srcset to instead of `srcset`. */
    alternativeSrcSet: string,
    /** CSS class appended to every matched image. */
    addClass: string)

  /** PHP truthiness of a string setting: "" and "0" are false. */
  predicate Truthy(s: string)
    ensures Truthy(s) ==> s != "" && s != "0"
    ensures !Truthy(s) ==> s == "" || s == "0"
  {
    s != "" && s != "0"
  }

  /** The attribute that receives the srcset string. */
  function TargetAttribute(cfg: Config): (t: string)
    ensures Truthy(t)
    ensures Truthy(cfg.alternativeSrcSet) ==> t == cfg.alternativeSrcSet
    ensures !Truthy(cfg.alternativeSrcSet) ==> t == "srcset"
  {
    if Truthy(cfg.alternativeSrcSet) then cfg.alternativeSrcSet else "srcset"
  }
}
