/**
 * The matcher's process-wide constant tables: the skill vocabulary and the two
 * ordered header lists that bound the experience section. They are `const`s,
 * so nothing can change them after start-up.
 */
module Tables {

  /** The skill vocabulary, in the order extraction tests it. */
  const SkillsDb: seq<string> :=
    Languages + WebFrameworks + DataScience + CloudDevOps + Databases + ConceptsAndTools

  const Languages: seq<string> := [
    "Python", "Java", "C++", "C", "C#", "JavaScript", "TypeScript", "Go", "Rust", "Swift",
    "Kotlin", "PHP", "Ruby", "Scala", "R", "Matlab", "Dart", "Lua", "Perl", "Shell", "Bash"
  ]

  const WebFrameworks: seq<string> := [
    "HTML", "CSS", "React", "Angular", "Vue", "Next.js", "Node.js", "Django", "Flask",
    "FastAPI", "Spring Boot", "ASP.NET", "Laravel", "Ruby on Rails", "Tailwind", "Bootstrap",
    "jQuery", "GraphQL", "REST API"
  ]

  const DataScience: seq<string> := [
    "Machine Learning", "Deep Learning", "Data Science", "NLP", "Computer Vision",
    "TensorFlow", "PyTorch", "Keras", "Scikit-learn", "Pandas", "NumPy", "Matplotlib",
    "Seaborn", "OpenCV", "Hugging Face", "LLM", "Generative AI", "NLTK", "Spacy", "Jupyter"
  ]

  const CloudDevOps: seq<string> := [
    "AWS", "Azure", "GCP", "Docker", "Kubernetes", "Terraform", "Ansible", "Jenkins", "Git",
    "GitHub", "GitLab", "CI/CD", "Linux", "Unix", "Nginx", "Apache", "Heroku", "Vercel",
    "Netlify"
  ]

  const Databases: seq<string> := [
    "SQL", "NoSQL", "MongoDB", "PostgreSQL", "MySQL", "Oracle", "Redis", "Cassandra",
    "Elasticsearch", "DynamoDB", "Firebase", "Snowflake", "Databricks"
  ]

  const ConceptsAndTools: seq<string> := [
    "Algorithms", "Data Structures", "System Design", "OOP", "Functional Programming",
    "Agile", "Scrum", "Jira", "Trello", "Unit Testing", "Selenium", "Postman", "Swagger"
  ]

  /** Headers that open the experience section, tried in this order. */
  const ExperienceHeaders: seq<string> := [
    "work experience",
    "professional experience",
    "experience",
    "employment",
    "employment history",
    "work history"
  ]

  /** Headers that close the experience section, tried in this order. */
  const StopHeaders: seq<string> := [
    "education",
    "projects",
    "skills",
    "certifications",
    "achievements",
    "leadership",
    "interests",
    "hobbies",
    "languages",
    "summary"
  ]
}
