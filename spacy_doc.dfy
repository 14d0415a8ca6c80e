/** The part of a spaCy document the modelled filters read: its named entities. */
module SpacyDoc {
  import opened Wrappers
  import Strings

  /** `ent.label_` (as `tag`), `ent.text`, `ent.start_char` and `ent.end_char` of one entity span. */
  datatype Entity = Entity(tag: string, text: string, startChar: nat, endChar: nat)

  /**
   * The loaded pipeline: `nlp(text).ents`, or the exception `nlp(text)`
   * raises (such as the ValueError for a text longer than `nlp.max_length`);
   * `None` when `spacy.load` failed at import time and the module-level `nlp`
   * is `None`.
   */
  type Pipeline = Option<string -> Result<seq<Entity>>>

  /** The lower-cased forms of the entity labels the filters keep. */
  lemma LowerOfLabel(tag: string)
    requires tag in ["PERSON", "ORG", "GPE", "DATE", "MONEY", "CARDINAL"]
    ensures tag == "PERSON" ==> Strings.Lower(tag) == "person"
    ensures tag == "ORG" ==> Strings.Lower(tag) == "org"
    ensures tag == "GPE" ==> Strings.Lower(tag) == "gpe"
    ensures tag == "DATE" ==> Strings.Lower(tag) == "date"
    ensures tag == "MONEY" ==> Strings.Lower(tag) == "money"
    ensures tag == "CARDINAL" ==> Strings.Lower(tag) == "cardinal"
  {
    if tag == "PERSON" {
      LowerPerson();
    } else if tag == "ORG" {
      LowerOrg();
    } else if tag == "GPE" {
      LowerGpe();
    } else if tag == "DATE" {
      LowerDate();
    } else if tag == "MONEY" {
      LowerMoney();
    } else {
      LowerCardinal();
    }
  }

  lemma LowerPerson() ensures Strings.Lower("PERSON") == "person" { }
  lemma LowerOrg() ensures Strings.Lower("ORG") == "org" { }
  lemma LowerGpe() ensures Strings.Lower("GPE") == "gpe" { }
  lemma LowerDate() ensures Strings.Lower("DATE") == "date" { }
  lemma LowerMoney() ensures Strings.Lower("MONEY") == "money" { }

  lemma LowerCardinal()
    ensures Strings.Lower("CARDINAL") == "cardinal"
  {
  }
}
