// ISO 3166-1 reference data: the curated country codes and names.
module Countries {
  const CODES_A_C: set<string> := {"AD", "AE", "AR", "AT", "AU", "BE", "BG", "BR", "CA", "CH", "CN", "CY", "CZ"}
  const CODES_D_H: set<string> := {"DE", "DK", "EE", "ES", "FI", "FR", "GB", "GR", "HR", "HU"}
  const CODES_I_L: set<string> := {"IE", "IL", "IN", "IS", "IT", "JP", "KR", "LI", "LT", "LU", "LV"}
  const CODES_M_R: set<string> := {"MC", "MT", "MX", "NL", "NO", "NZ", "PL", "PT", "RO", "RS", "RU"}
  const CODES_S_Z: set<string> := {"SE", "SI", "SK", "SM", "TR", "UA", "US", "ZA"}

  const VALID_COUNTRY_CODES: set<string> := CODES_A_C + CODES_D_H + CODES_I_L + CODES_M_R + CODES_S_Z

  const NAMES_A_C: map<string, string> := map[
    "AUSTRIA" := "AT", "BELGIUM" := "BE", "BULGARIA" := "BG", "BRAZIL" := "BR", "CANADA" := "CA",
    "CHINA" := "CN", "CYPRUS" := "CY", "CZECHIA" := "CZ", "CZECH REPUBLIC" := "CZ", "CROATIA" := "HR"]

  const NAMES_D_H: map<string, string> := map[
    "GERMANY" := "DE", "DENMARK" := "DK", "ESTONIA" := "EE", "FINLAND" := "FI", "FRANCE" := "FR",
    "GREECE" := "GR", "HUNGARY" := "HU"]

  const NAMES_I_L: map<string, string> := map[
    "IRELAND" := "IE", "ISRAEL" := "IL", "INDIA" := "IN", "ICELAND" := "IS", "ITALY" := "IT",
    "JAPAN" := "JP", "LIECHTENSTEIN" := "LI", "LITHUANIA" := "LT", "LUXEMBOURG" := "LU", "LATVIA" := "LV"]

  const NAMES_M_R: map<string, string> := map[
    "MONACO" := "MC", "MALTA" := "MT", "MEXICO" := "MX", "NETHERLANDS" := "NL", "NORWAY" := "NO",
    "NEW ZEALAND" := "NZ", "POLAND" := "PL", "PORTUGAL" := "PT", "ROMANIA" := "RO", "RUSSIA" := "RU"]

  const NAMES_S_Z: map<string, string> := map[
    "SWITZERLAND" := "CH", "SPAIN" := "ES", "UNITED KINGDOM" := "GB", "SERBIA" := "RS", "SWEDEN" := "SE",
    "SLOVENIA" := "SI", "SLOVAKIA" := "SK", "SAN MARINO" := "SM", "TURKEY" := "TR", "UKRAINE" := "UA",
    "UNITED STATES" := "US", "UNITED STATES OF AMERICA" := "US", "SOUTH AFRICA" := "ZA"]

  const COUNTRY_NAME_TO_CODE: map<string, string> := NAMES_A_C + NAMES_D_H + NAMES_I_L + NAMES_M_R + NAMES_S_Z

  predicate IsLetter(c: char) { 'A' <= c <= 'Z' }

  predicate IsCode(s: string) { |s| == 2 && IsLetter(s[0]) && IsLetter(s[1]) }

  lemma Codes_A_C(c: string)
    requires c in CODES_A_C
    ensures IsCode(c)
  {
  }

  lemma Codes_D_H(c: string)
    requires c in CODES_D_H
    ensures IsCode(c)
  {
  }

  lemma Codes_I_L(c: string)
    requires c in CODES_I_L
    ensures IsCode(c)
  {
  }

  lemma Codes_M_R(c: string)
    requires c in CODES_M_R
    ensures IsCode(c)
  {
  }

  lemma Codes_S_Z(c: string)
    requires c in CODES_S_Z
    ensures IsCode(c)
  {
  }

  /** Every valid code is two capital letters. */
  lemma CodesAreLetters(c: string)
    requires c in VALID_COUNTRY_CODES
    ensures IsCode(c)
  {
    if c in CODES_A_C {
      Codes_A_C(c);
    }
    if c in CODES_D_H {
      Codes_D_H(c);
    }
    if c in CODES_I_L {
      Codes_I_L(c);
    }
    if c in CODES_M_R {
      Codes_M_R(c);
    }
    if c in CODES_S_Z {
      Codes_S_Z(c);
    }
  }

  lemma Names_A_C(n: string)
    requires n in NAMES_A_C
    ensures NAMES_A_C[n] in VALID_COUNTRY_CODES
  {
  }

  lemma Names_D_H(n: string)
    requires n in NAMES_D_H
    ensures NAMES_D_H[n] in VALID_COUNTRY_CODES
  {
  }

  lemma Names_I_L(n: string)
    requires n in NAMES_I_L
    ensures NAMES_I_L[n] in VALID_COUNTRY_CODES
  {
  }

  lemma Names_M_R(n: string)
    requires n in NAMES_M_R
    ensures NAMES_M_R[n] in VALID_COUNTRY_CODES
  {
  }

  lemma Names_S_Z(n: string)
    requires n in NAMES_S_Z
    ensures NAMES_S_Z[n] in VALID_COUNTRY_CODES
  {
  }

  /** Every country name maps to a valid code. */
  lemma NamesHaveCodes(n: string)
    requires n in COUNTRY_NAME_TO_CODE
    ensures COUNTRY_NAME_TO_CODE[n] in VALID_COUNTRY_CODES
  {
    if n in NAMES_S_Z {
      Names_S_Z(n);
    } else if n in NAMES_M_R {
      Names_M_R(n);
    } else if n in NAMES_I_L {
      Names_I_L(n);
    } else if n in NAMES_D_H {
      Names_D_H(n);
    } else {
      Names_A_C(n);
    }
  }
}
