/** The dashboard's fixed configuration: roster, goals and the names the parsers look for. */
module Config {
  import opened Frames

  /** A goal: the threshold in percent and its direction ("up": higher is better, "down": lower). */
  datatype Meta = Meta(meta: real, direcao: string)

  /** The tracked team (EQUIPE): matricula, name, sector. */
  const EQUIPE: seq<Employee> := [
    Employee("N6088107", "LEANDRO GONÇALVES DE CARVALHO", "EMPRESARIAL"),
    Employee("N5619600", "BRUNO COSTA BUCARD", "EMPRESARIAL"),
    Employee("N0189105", "IGOR MARCELINO DE MARINS", "EMPRESARIAL"),
    Employee("N5737414", "SANDRO DA SILVA CARVALHO", "EMPRESARIAL"),
    Employee("N5713690", "GABRIELA TAVARES DA SILVA", "EMPRESARIAL"),
    Employee("N5802257", "MAGNO FERRAREZ DE MORAIS", "EMPRESARIAL"),
    Employee("F201714", "FERNANDA MESQUITA DE FREITAS", "EMPRESARIAL"),
    Employee("N6173055", "JEFFERSON LUIS GONÇALVES COITINHO", "EMPRESARIAL"),
    Employee("N0125317", "ROBERTO SILVA DO NASCIMENTO", "EMPRESARIAL"),
    Employee("F218860", "ALDENES MARQUES IDALINO DA SILVA", "EMPRESARIAL"),
    Employee("N5819183", "RODRIGO PIRES BERNARDINO", "EMPRESARIAL"),
    Employee("N5926003", "SUELLEN HERNANDEZ DA SILVA", "EMPRESARIAL"),
    Employee("N5932064", "MONICA DA SILVA RODRIGUES", "EMPRESARIAL"),
    Employee("N0238475", "MARLEY MARQUES RIBEIRO", "RESIDENCIAL"),
    Employee("N5923221", "KELLY PINHEIRO LIRA", "RESIDENCIAL"),
    Employee("N5772086", "THIAGO PEREIRA DA SILVA", "RESIDENCIAL"),
    Employee("N0239871", "LEONARDO FERREIRA LIMA DE ALMEIDA", "RESIDENCIAL"),
    Employee("N5577565", "MARISTELLA MARCIA DOS SANTOS", "RESIDENCIAL"),
    Employee("N5972428", "CRISTIANE HERMOGENES DA SILVA", "RESIDENCIAL"),
    Employee("N4014011", "ALAN MARINHO DIAS", "RESIDENCIAL"),
    Employee("F106664", "RAISSA LIMA DE OLIVEIRA", "RESIDENCIAL")
  ]

  /** Goals per indicator, in the dictionary's insertion order (METAS). */
  const METAS: seq<(string, Meta)> := [
    ("DPA - Ocupação", Meta(90.0, "up")),
    ("Chat TOA", Meta(75.0, "up")),
    ("ETIT por Evento RAL", Meta(90.0, "up")),
    ("ETIT por Evento REC", Meta(90.0, "up")),
    ("ETIT Outage Sem Sinal (GPON)", Meta(90.0, "up")),
    ("Log Outage Reprog. GPON", Meta(10.0, "down"))
  ]

  /** Substrings that identify the Chat TOA indicator, whose name changes between exports. */
  const CHAT_TOA_NAME_PATTERNS: seq<string> := ["CHAT", "INTERAÇÃO", "INTERACAO", "10 MIN", "10MIN", "TOA CHAT"]

  const RES_ETIT_GPON_INDICADOR_NOME := "ETIT GPON"
  const RES_LOG_REPROG_GPON_INDICADOR_NOME := "LOG REPROGRAMAÇÃO GPON"
  const RES_SINTOMA_SEM_SINAL := "INTERRUPCAO"
}
